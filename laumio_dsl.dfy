/** The interpreter of the example light-show language (examples/example.py).
    A program is a list of commands run against a shared context: the
    devices, the named groups of devices, and the list of registered
    callbacks, which is run after each top-level command.

    The context is the class `Interpreter`; what each command does to it is
    the function `Exec` on a `State` value, and every method is proved to
    leave the object in the state `Exec` gives.  Devices are known by their
    position in the device list.  What the devices are asked to do (fill,
    set a ring, set a column) is recorded in order in `log`; the button
    status, random in the source, is a parameter of the world, a function of
    the read's ordinal number and the button. */
module LaumioDsl {
  import opened Common

  // ---------------------------------------------------------------------
  // SPATIAL_POSITION and ENUMERATION_WORDS

  /** A key or value of SPATIAL_POSITION: a device name or a position. */
  datatype Place = Named(name: string) | Position(pos: int)

  const SpatialPosition: map<Place, Place> := map[
    Named("LaumioA") := Position(0),
    Named("LaumioB") := Position(1),
    Named("LaumioC") := Position(2),
    Position(0) := Named("LaumioA"),
    Position(1) := Named("LaumioB"),
    Position(2) := Named("LaumioC")
  ]

  /** SPATIAL_POSITION pairs the three names with the positions 0 to 2, in
      both directions. */
  lemma SpatialPositionIsBijection()
    ensures forall p :: p in SpatialPosition ==>
      SpatialPosition[p] in SpatialPosition && SpatialPosition[SpatialPosition[p]] == p
    ensures forall p :: p in SpatialPosition ==> (p.Named? <==> SpatialPosition[p].Position?)
    ensures forall n: int :: Position(n) in SpatialPosition <==> 0 <= n <= 2
  {
    var keys := {Named("LaumioA"), Named("LaumioB"), Named("LaumioC"), Position(0), Position(1), Position(2)};
    assert SpatialPosition.Keys == keys;
    forall p | p in SpatialPosition
      ensures SpatialPosition[p] in SpatialPosition && SpatialPosition[SpatialPosition[p]] == p
      ensures p.Named? <==> SpatialPosition[p].Position?
    {
      assert p in keys;
    }
    forall n: int ensures Position(n) in SpatialPosition <==> 0 <= n <= 2 {
      assert Position(n) in keys <==> n == 0 || n == 1 || n == 2;
    }
  }

  /** Ring and column words, numbered from the bottom. */
  const EnumerationWords: map<string, int> := map[
    "1" := 2, "top" := 2, "first" := 2,
    "2" := 1, "middle" := 1, "second" := 1,
    "3" := 0, "last" := 0, "third" := 0, "bottom" := 0
  ]

  /** Every word is in lower case, so the lowered specifier finds it; the
      numbers count from the top, and the ordinals agree with them. */
  lemma EnumerationWordsCountFromTop()
    ensures forall w :: w in EnumerationWords ==> Lower(w) == w && 0 <= EnumerationWords[w] <= 2
    ensures EnumerationWords["1"] == 2 && EnumerationWords["2"] == 1 && EnumerationWords["3"] == 0
    ensures EnumerationWords["first"] == EnumerationWords["1"] == EnumerationWords["top"]
    ensures EnumerationWords["second"] == EnumerationWords["2"] == EnumerationWords["middle"]
    ensures EnumerationWords["third"] == EnumerationWords["3"] == EnumerationWords["bottom"] == EnumerationWords["last"]
  {
    var keys := {"1", "top", "first", "2", "middle", "second", "3", "last", "third", "bottom"};
    assert EnumerationWords.Keys == keys;
    forall w | w in EnumerationWords ensures Lower(w) == w && 0 <= EnumerationWords[w] <= 2 {
      assert w in keys;
      assert forall i :: 0 <= i < |w| ==> !('A' <= w[i] <= 'Z');
    }
  }

  // ---------------------------------------------------------------------
  // Devices by name or position

  /** A device, by its position in the device list. */
  type Device = nat

  predicate IsDigit(c: char) {
    '0' <= c <= '9'
  }

  /** `str.isnumeric`, for the ASCII identifiers of the grammar. */
  predicate IsNumeric(s: string) {
    |s| > 0 && forall i :: 0 <= i < |s| ==> IsDigit(s[i])
  }

  /** `int(s)` of a string of digits. */
  function DigitsValue(s: string): nat
    requires forall i :: 0 <= i < |s| ==> IsDigit(s[i])
  {
    if s == [] then 0
    else
      assert IsDigit(s[|s| - 1]);
      DigitsValue(s[..|s| - 1]) * 10 + (s[|s| - 1] as int - '0' as int)
  }

  /** The name `laumio_from_name_or_id` looks for: a number is taken through
      SPATIAL_POSITION (which fails on a number it does not list); anything
      else is a name already. */
  function NameOf(s: string): (r: Result<string>)
    ensures !IsNumeric(s) ==> r == Ok(s)
    ensures IsNumeric(s) ==> (r.Ok? <==> DigitsValue(s) <= 2)
    ensures r.Err? ==> r.error == KeyError
  {
    if !IsNumeric(s) then Ok(s)
    else
      var p := Position(DigitsValue(s));
      if p !in SpatialPosition then Err(KeyError)
      else if !SpatialPosition[p].Named? then Err(AssertionError)
      else Ok(SpatialPosition[p].name)
  }

  /** A position is taken to the name SPATIAL_POSITION maps back to it. */
  lemma NameOfPosition(s: string)
    requires IsNumeric(s) && NameOf(s).Ok?
    ensures Named(NameOf(s).value) in SpatialPosition
    ensures SpatialPosition[Named(NameOf(s).value)] == Position(DigitsValue(s))
  {
  }

  /** The first device from position `k` on with the name `name`. */
  function FirstNamedFrom(devices: seq<string>, name: string, k: nat): (r: Option<Device>)
    requires k <= |devices|
    ensures r.Some? ==>
      k <= r.value < |devices| && devices[r.value] == name && forall j :: k <= j < r.value ==> devices[j] != name
    ensures r.None? ==> forall j :: k <= j < |devices| ==> devices[j] != name
    decreases |devices| - k
  {
    if k == |devices| then None
    else if devices[k] == name then Some(k)
    else FirstNamedFrom(devices, name, k + 1)
  }

  /** `laumio_from_name_or_id`: the first device with the name, or None. */
  function Resolve(devices: seq<string>, s: string): (r: Result<Option<Device>>)
    ensures r.Err? <==> NameOf(s).Err?
    ensures r.Err? ==> r.error == KeyError
    ensures r.Ok? && r.value.Some? ==>
      r.value.value < |devices| && devices[r.value.value] == NameOf(s).value &&
      forall j :: 0 <= j < r.value.value ==> devices[j] != NameOf(s).value
    ensures r.Ok? && r.value.None? ==> NameOf(s).value !in devices
  {
    var n :- NameOf(s);
    Ok(FirstNamedFrom(devices, n, 0))
  }

  /** `map(context['get laumio'], ids)` after `acc`, in order; it stops at
      the first id that cannot be resolved. */
  function ResolveFrom(devices: seq<string>, acc: seq<Option<Device>>, ids: seq<string>): (r: Result<seq<Option<Device>>>)
    ensures r.Err? <==> exists i :: 0 <= i < |ids| && Resolve(devices, ids[i]).Err?
    ensures r.Err? ==> r.error == KeyError
    ensures r.Ok? ==> |r.value| == |acc| + |ids| && r.value[..|acc|] == acc
    ensures r.Ok? ==> forall i :: 0 <= i < |ids| ==> Resolve(devices, ids[i]) == Ok(r.value[|acc| + i])
    decreases |ids|
  {
    if ids == [] then Ok(acc)
    else
      var d :- Resolve(devices, ids[0]);
      var r := ResolveFrom(devices, acc + [d], ids[1..]);
      assert forall i :: 1 <= i < |ids| ==> ids[i] == ids[1..][i - 1];
      assert r.Ok? ==> r.value[..|acc|] == (r.value[..|acc| + 1])[..|acc|];
      r
  }

  /** The devices found among resolved names, in order (the tuple the
      `Group` command stores). */
  function Present(rs: seq<Option<Device>>): (r: seq<Device>)
    ensures forall d :: d in r <==> Some(d) in rs
    ensures |r| <= |rs|
  {
    if rs == [] then []
    else
      assert rs == [rs[0]] + rs[1..];
      (if rs[0].Some? then [rs[0].value] else []) + Present(rs[1..])
  }

  /** Filtering keeps the order of the resolved names. */
  lemma {:induction false} PresentConcat(a: seq<Option<Device>>, b: seq<Option<Device>>)
    ensures Present(a + b) == Present(a) + Present(b)
    decreases |a|
  {
    if a == [] {
      assert a + b == b;
    } else {
      assert (a + b)[0] == a[0] && (a + b)[1..] == a[1..] + b;
      PresentConcat(a[1..], b);
    }
  }

  /** The devices of a group, as `Color` collects them. */
  function Somes(ds: seq<Device>): (r: seq<Option<Device>>)
    ensures |r| == |ds| && forall i :: 0 <= i < |ds| ==> r[i] == Some(ds[i])
  {
    seq(|ds|, i requires 0 <= i < |ds| => Some(ds[i]))
  }

  /** Filtering devices that are all there gives them back. */
  lemma {:induction false} PresentSomes(ds: seq<Device>)
    ensures Present(Somes(ds)) == ds
    decreases |ds|
  {
    if ds != [] {
      assert Somes(ds)[1..] == Somes(ds[1..]);
      PresentSomes(ds[1..]);
    }
  }

  // ---------------------------------------------------------------------
  // Commands, device calls and the context

  /** `ButtonComparison`: button number and the `not` flag. */
  datatype Comparison = ButtonComparison(button: int, negation: bool)

  /** A parsed command.  `oid` identifies the command object, whose
      `groupname` or `specifier` its first run overwrites; `target` is the
      empty string when the command has none. */
  datatype Command =
    | Require(sensor: string)
    | Group(oid: nat, members: seq<string>, groupname: string)
    | Color(oid: nat, targets: seq<string>, specifier: Option<string>, target: string, color: string)
    | Condition(comparison: Comparison, ifCommands: seq<Command>, elseCommands: seq<Command>)
    | Callback(comparison: Comparison, subcommands: seq<Command>)

  /** A ring or column specifier: a word, or the position a word names. */
  datatype Spec = Word(word: string) | Index(index: int)

  /** What a device is asked to do. */
  datatype Action =
    | Fill(device: Device, color: string)
    | SetRing(device: Device, ring: string, color: string)
    | SetColumn(device: Device, column: Spec, color: string)

  /** The call a `Color` command makes on each device. */
  datatype Op = FillOp | RingOp(ring: string) | ColumnOp(column: Spec)

  function ActionFor(op: Op, d: Device, color: string): (r: Action)
    ensures r.device == d && r.color == color
  {
    match op
    case FillOp => Fill(d, color)
    case RingOp(w) => SetRing(d, w, color)
    case ColumnOp(c) => SetColumn(d, c, color)
  }

  /** What the interpreter does not change: the device names, and the
      status of each button at each read. */
  datatype World = World(devices: seq<string>, pressed: (nat, int) -> bool)

  type Registered = (Comparison, seq<Command>)

  /** The context: `context['groups']`, the callback list, how many button
      reads were made, the commands whose `groupname` and `specifier` were
      overwritten, and the device calls made so far. */
  datatype State = State(
    groups: map<string, seq<Device>>,
    callbacks: seq<Registered>,
    presses: nat,
    renamed: set<nat>,
    specifiers: map<nat, Spec>,
    log: seq<Action>)

  /** `comparison.caller(context, callbacks)()`: reads the button on the
      first device; true when its status differs from the negation flag. */
  function Read(w: World, s: State, cmp: Comparison): (r: (State, Result<bool>))
    ensures r.1.Err? <==> w.devices == []
    ensures r.1.Err? ==> r == (s, Err(IndexError))
    ensures r.1.Ok? ==> r.0 == s.(presses := s.presses + 1)
    ensures r.1.Ok? ==> r.1.value == (w.pressed(s.presses, cmp.button) != cmp.negation)
  {
    if |w.devices| == 0 then (s, Err(IndexError))
    else
      var pressed := w.pressed(s.presses, cmp.button);
      (s.(presses := s.presses + 1), Ok(if cmp.negation then !pressed else pressed))
  }

  /** What `Color` collects for one target: a group's devices, or one
      device resolved by name or position (None when there is none). */
  function CollectOne(devices: seq<string>, groups: map<string, seq<Device>>, t: string): (r: Result<seq<Option<Device>>>)
    ensures t in groups ==> r == Ok(Somes(groups[t]))
    ensures t !in groups ==> r.Err? == Resolve(devices, t).Err?
    ensures t !in groups && r.Ok? ==> r.value == [Resolve(devices, t).value]
    ensures r.Err? ==> r.error == KeyError
  {
    if t in groups then Ok(Somes(groups[t]))
    else
      var d :- Resolve(devices, t);
      Ok([d])
  }

  /** The devices `Color` collects for the targets, after `acc`. */
  function CollectFrom(devices: seq<string>, groups: map<string, seq<Device>>, acc: seq<Option<Device>>,
                       ts: seq<string>): (r: Result<seq<Option<Device>>>)
    ensures r.Err? ==> r.error == KeyError
    decreases |ts|
  {
    if ts == [] then Ok(acc)
    else
      var one :- CollectOne(devices, groups, ts[0]);
      CollectFrom(devices, groups, acc + one, ts[1..])
  }

  function Collect(devices: seq<string>, groups: map<string, seq<Device>>, ts: seq<string>): (r: Result<seq<Option<Device>>>)
    ensures r.Err? ==> r.error == KeyError
  {
    CollectFrom(devices, groups, [], ts)
  }

  /** Collecting after `acc` puts `acc` first. */
  lemma {:induction false} CollectFromAcc(devices: seq<string>, groups: map<string, seq<Device>>,
                                          acc: seq<Option<Device>>, ts: seq<string>)
    ensures CollectFrom(devices, groups, acc, ts).Ok? == Collect(devices, groups, ts).Ok?
    ensures CollectFrom(devices, groups, acc, ts).Ok? ==>
      CollectFrom(devices, groups, acc, ts).value == acc + Collect(devices, groups, ts).value
    decreases |ts|
  {
    if ts != [] {
      var one := CollectOne(devices, groups, ts[0]);
      if one.Ok? {
        var rest := Collect(devices, groups, ts[1..]);
        CollectFromAcc(devices, groups, acc + one.value, ts[1..]);
        CollectFromAcc(devices, groups, one.value, ts[1..]);
        assert [] + one.value == one.value;
        assert Collect(devices, groups, ts) == CollectFrom(devices, groups, one.value, ts[1..]);
        if rest.Ok? {
          assert (acc + one.value) + rest.value == acc + (one.value + rest.value);
        }
      }
    }
  }

  /** The collected devices keep the order of the targets: those of `a`,
      then those of `b`. */
  lemma {:induction false} CollectConcat(devices: seq<string>, groups: map<string, seq<Device>>,
                                         a: seq<string>, b: seq<string>)
    requires Collect(devices, groups, a).Ok? && Collect(devices, groups, b).Ok?
    ensures Collect(devices, groups, a + b) ==
      Ok(Collect(devices, groups, a).value + Collect(devices, groups, b).value)
    decreases |a|
  {
    if a == [] {
      assert a + b == b;
      assert [] + Collect(devices, groups, b).value == Collect(devices, groups, b).value;
    } else {
      var one := CollectOne(devices, groups, a[0]).value;
      assert [] + one == one;
      assert Collect(devices, groups, a) == CollectFrom(devices, groups, one, a[1..]);
      CollectFromAcc(devices, groups, one, a[1..]);
      CollectConcat(devices, groups, a[1..], b);
      assert (a + b)[0] == a[0] && (a + b)[1..] == a[1..] + b;
      assert Collect(devices, groups, a + b) == CollectFrom(devices, groups, one, a[1..] + b);
      CollectFromAcc(devices, groups, one, a[1..] + b);
      assert one + (Collect(devices, groups, a[1..]).value + Collect(devices, groups, b).value) ==
        (one + Collect(devices, groups, a[1..]).value) + Collect(devices, groups, b).value;
    }
  }

  /** A single target: a group's name gives its devices, any other name the
      device it resolves to. */
  lemma CollectSingle(devices: seq<string>, groups: map<string, seq<Device>>, t: string)
    ensures t in groups ==> Collect(devices, groups, [t]) == Ok(Somes(groups[t]))
    ensures t !in groups && Resolve(devices, t).Ok? ==> Collect(devices, groups, [t]) == Ok([Resolve(devices, t).value])
    ensures t !in groups && Resolve(devices, t).Err? ==> Collect(devices, groups, [t]) == Err(KeyError)
  {
    assert [t][0] == t && [t][1..] == [];
    var one := CollectOne(devices, groups, t);
    if one.Ok? {
      assert CollectFrom(devices, groups, [], [t]) == CollectFrom(devices, groups, [] + one.value, [t][1..]);
      assert [] + one.value == one.value;
      assert CollectFrom(devices, groups, one.value, []) == Ok(one.value);
    }
  }

  /** The device calls of a `Color` command after `log`: one per collected
      device, in order, up to the first device that was not found, where
      the call fails. */
  function Apply(log: seq<Action>, devs: seq<Option<Device>>, op: Op, color: string): (r: (seq<Action>, Result<()>))
    ensures r.1.Err? ==> r.1.error == AttributeError
    decreases |devs|
  {
    if devs == [] then (log, Ok(()))
    else if devs[0].None? then (log, Err(AttributeError))
    else Apply(log + [ActionFor(op, devs[0].value, color)], devs[1..], op, color)
  }

  /** The calls made on devices that are all there. */
  function Actions(ds: seq<Device>, op: Op, color: string): (r: seq<Action>)
    ensures |r| == |ds| && forall i :: 0 <= i < |ds| ==> r[i] == ActionFor(op, ds[i], color)
  {
    seq(|ds|, i requires 0 <= i < |ds| => ActionFor(op, ds[i], color))
  }

  /** When every collected device is there, each gets its call, in order. */
  lemma {:induction false} ApplyAllPresent(log: seq<Action>, devs: seq<Option<Device>>, op: Op, color: string)
    requires forall i :: 0 <= i < |devs| ==> devs[i].Some?
    ensures Apply(log, devs, op, color) == (log + Actions(Present(devs), op, color), Ok(()))
    decreases |devs|
  {
    if devs == [] {
      assert log + Actions([], op, color) == log;
    } else {
      var a0 := ActionFor(op, devs[0].value, color);
      ApplyAllPresent(log + [a0], devs[1..], op, color);
      assert Present(devs) == [devs[0].value] + Present(devs[1..]) by {
        assert devs == [devs[0]] + devs[1..];
      }
      ActionsCons(devs[0].value, Present(devs[1..]), op, color);
      SeqAssoc(log, [a0], Actions(Present(devs[1..]), op, color));
    }
  }

  lemma ActionsCons(d: Device, ds: seq<Device>, op: Op, color: string)
    ensures Actions([d] + ds, op, color) == [ActionFor(op, d, color)] + Actions(ds, op, color)
  {
  }

  lemma SeqAssoc<T>(a: seq<T>, b: seq<T>, c: seq<T>)
    ensures (a + b) + c == a + (b + c)
  {
  }

  /** The calls for `a + b` are those for `a`, then, unless a device of
      `a` was missing, those for `b`. */
  lemma {:induction false} ApplyConcat(log: seq<Action>, a: seq<Option<Device>>, b: seq<Option<Device>>, op: Op, color: string)
    ensures Apply(log, a + b, op, color) ==
      (var (l, r) := Apply(log, a, op, color); if r.Err? then (l, r) else Apply(l, b, op, color))
    decreases |a|
  {
    if a == [] {
      assert a + b == b;
    } else {
      assert (a + b)[0] == a[0] && (a + b)[1..] == a[1..] + b;
      if a[0].Some? {
        ApplyConcat(log + [ActionFor(op, a[0].value, color)], a[1..], b, op, color);
      }
    }
  }

  /** A device that was not found stops the calls there, after the calls on
      the devices before it. */
  lemma ApplyStopsAtMissing(log: seq<Action>, devs: seq<Option<Device>>, k: nat, op: Op, color: string)
    requires k < |devs| && devs[k].None? && forall i :: 0 <= i < k ==> devs[i].Some?
    ensures Apply(log, devs, op, color) == (log + Actions(Present(devs[..k]), op, color), Err(AttributeError))
  {
    assert devs == devs[..k] + devs[k..];
    ApplyConcat(log, devs[..k], devs[k..], op, color);
    ApplyAllPresent(log, devs[..k], op, color);
    assert devs[k..][0] == devs[k];
  }

  /** The specifier a `Color` command holds now: the one its last run
      stored, or the parsed one. */
  function CurrentSpecifier(s: State, oid: nat, parsed: Option<string>): Option<Spec> {
    if oid in s.specifiers then Some(s.specifiers[oid])
    else if parsed.Some? then Some(Word(parsed.value))
    else None
  }

  /** The ring branch's new specifier: the lowered `ENUMERATION_WORDS.get`
      of the lowered word, which fails on every word the table lists (its
      value is a number) and on a missing or numeric specifier. */
  function RingSpecifier(cur: Option<Spec>): Result<string> {
    if cur.None? || cur.value.Index? then Err(AttributeError)
    else if Lower(cur.value.word) in EnumerationWords then Err(AttributeError)
    else Ok(Lower(cur.value.word))
  }

  /** The column branch's new specifier: the position of the lowered word,
      or the word itself when the table does not list it. */
  function ColumnSpecifier(cur: Option<Spec>): Result<Spec> {
    if cur.None? || cur.value.Index? then Err(AttributeError)
    else Ok(EnumerationWordOr(cur.value.word))
  }

  function EnumerationWordOr(w: string): Spec {
    if Lower(w) in EnumerationWords then Index(EnumerationWords[Lower(w)]) else Word(w)
  }

  /** The device calls of a `Color` command, recorded in the log. */
  function Log(s: State, devs: seq<Option<Device>>, op: Op, color: string): (r: (State, Result<()>))
    ensures r.0 == s.(log := r.0.log)
  {
    var (l, res) := Apply(s.log, devs, op, color);
    (s.(log := l), res)
  }

  /** `Group.execute`. */
  function ExecGroup(w: World, s: State, oid: nat, ids: seq<string>, name: string): (r: (State, Result<()>))
    ensures r.0 == s.(groups := r.0.groups, renamed := r.0.renamed)
    ensures r.1.Err? ==> r.0 == s
    ensures r.1.Ok? ==> oid !in s.renamed && oid in r.0.renamed && name in r.0.groups
    ensures forall g :: g in s.groups && g != name ==> g in r.0.groups && r.0.groups[g] == s.groups[g]
  {
    var rs := ResolveFrom(w.devices, [], ids);
    if rs.Err? then (s, Err(rs.error))
    else if oid in s.renamed then (s, Err(AttributeError))
    else (s.(renamed := s.renamed + {oid}, groups := s.groups[name := Present(rs.value)]), Ok(()))
  }

  /** `Color.execute`. */
  function ExecColor(w: World, s: State, oid: nat, ts: seq<string>, sp: Option<string>, target: string, color: string): (r: (State, Result<()>))
    ensures r.0 == s.(specifiers := r.0.specifiers, log := r.0.log)
    ensures forall k :: k in s.specifiers && k != oid ==> k in r.0.specifiers && r.0.specifiers[k] == s.specifiers[k]
    ensures r.0.specifiers.Keys <= s.specifiers.Keys + {oid}
    ensures target != "ring" && target != "column" && target != "" ==> r.1.Err? && r.0 == s
  {
    var devs := Collect(w.devices, s.groups, ts);
    if devs.Err? then (s, Err(devs.error))
    else if target == "ring" then
      var ring := RingSpecifier(CurrentSpecifier(s, oid, sp));
      if ring.Err? then (s, Err(ring.error))
      else Log(s.(specifiers := s.specifiers[oid := Word(ring.value)]), devs.value, RingOp(ring.value), color)
    else if target == "column" then
      var column := ColumnSpecifier(CurrentSpecifier(s, oid, sp));
      if column.Err? then (s, Err(column.error))
      else Log(s.(specifiers := s.specifiers[oid := column.value]), devs.value, ColumnOp(column.value), color)
    else if target == "" then Log(s, devs.value, FillOp, color)
    else (s, Err(DslSyntaxError))
  }

  /** `command.execute(context, callbacks)`: the new context, and the error
      the command raises.  Effects made before an error stay. */
  function Exec(w: World, s: State, c: Command): (r: (State, Result<()>))
    ensures s.presses <= r.0.presses && |s.callbacks| <= |r.0.callbacks|
    ensures r.1 != Err(Diverges)
    ensures !c.Condition? ==> r.0.presses == s.presses
    ensures !c.Condition? && !c.Callback? ==> r.0.callbacks == s.callbacks
    decreases c
  {
    match c
    case Require(_) => (s, Err(AttributeError))
    case Group(oid, ids, name) => ExecGroup(w, s, oid, ids, name)
    case Color(oid, ts, sp, target, color) => ExecColor(w, s, oid, ts, sp, target, color)
    case Condition(cmp, ifc, elsec) =>
      var (s1, h) := Read(w, s, cmp);
      if h.Err? then (s1, Err(h.error))
      else if h.value then ExecAll(w, s1, ifc)
      else ExecAll(w, s1, elsec)
    case Callback(cmp, sub) => (s.(callbacks := s.callbacks + [(cmp, sub)]), Ok(()))
  }

  /** The commands run one after another, up to the first error. */
  function ExecAll(w: World, s: State, cs: seq<Command>): (r: (State, Result<()>))
    ensures s.presses <= r.0.presses && |s.callbacks| <= |r.0.callbacks|
    ensures r.1 != Err(Diverges)
    ensures |cs| == 1 ==> r == Exec(w, s, cs[0])
    decreases cs
  {
    if cs == [] then (s, Ok(()))
    else
      var (t, res) := Exec(w, s, cs[0]);
      if res.Err? then (t, res)
      else
        assert res.value == ();
        assert |cs| == 1 ==> cs[1..] == [];
        ExecAll(w, t, cs[1..])
  }

  /** `call_callbacks`, from the `i`-th registered callback on: each whose
      condition holds has its commands run, in registration order,
      including callbacks registered meanwhile.  At most `fuel` callbacks
      are visited; a list longer than that is reported as `Diverges`. */
  function CallbacksFrom(w: World, s: State, i: nat, fuel: nat): (r: (State, Result<()>))
    ensures s.presses <= r.0.presses && |s.callbacks| <= |r.0.callbacks|
    ensures r.1 == Err(Diverges) ==> i + fuel < |r.0.callbacks|
    decreases fuel
  {
    if i >= |s.callbacks| then (s, Ok(()))
    else if fuel == 0 then (s, Err(Diverges))
    else
      var (s1, h) := Read(w, s, s.callbacks[i].0);
      if h.Err? then (s1, Err(h.error))
      else if !h.value then CallbacksFrom(w, s1, i + 1, fuel - 1)
      else
        var (s2, res) := ExecAll(w, s1, s.callbacks[i].1);
        if res.Err? then (s2, res) else CallbacksFrom(w, s2, i + 1, fuel - 1)
  }

  /** The command loop of `interpret_string` after parsing: each command,
      then the callbacks. */
  function RunFrom(w: World, s: State, cs: seq<Command>, fuel: nat): (r: (State, Result<()>))
    ensures s.presses <= r.0.presses && |s.callbacks| <= |r.0.callbacks|
    decreases |cs|
  {
    if cs == [] then (s, Ok(()))
    else
      var (t, res) := Exec(w, s, cs[0]);
      if res.Err? then (t, res)
      else
        var (u, q) := CallbacksFrom(w, t, 0, fuel);
        if q.Err? then (u, q) else RunFrom(w, u, cs[1..], fuel)
  }

  // ---------------------------------------------------------------------
  // Properties of the commands

  /** `t` continues `s`: the callbacks and device calls of `s` are still
      there, first and in order; reads only go on; an overwritten
      `groupname` stays overwritten. */
  predicate Extends(s: State, t: State) {
    |s.callbacks| <= |t.callbacks| && t.callbacks[..|s.callbacks|] == s.callbacks &&
    |s.log| <= |t.log| && t.log[..|s.log|] == s.log &&
    s.presses <= t.presses && s.renamed <= t.renamed
  }

  lemma ExtendsTrans(a: State, b: State, c: State)
    requires Extends(a, b) && Extends(b, c)
    ensures Extends(a, c)
  {
    assert c.callbacks[..|a.callbacks|] == c.callbacks[..|b.callbacks|][..|a.callbacks|];
    assert c.log[..|a.log|] == c.log[..|b.log|][..|a.log|];
  }

  lemma {:induction false} ApplyExtends(log: seq<Action>, devs: seq<Option<Device>>, op: Op, color: string)
    ensures |log| <= |Apply(log, devs, op, color).0| && Apply(log, devs, op, color).0[..|log|] == log
    decreases |devs|
  {
    if devs != [] && devs[0].Some? {
      var l := log + [ActionFor(op, devs[0].value, color)];
      ApplyExtends(l, devs[1..], op, color);
      assert Apply(log, devs, op, color).0[..|log|] == Apply(log, devs, op, color).0[..|l|][..|log|];
    }
  }

  /** No command removes or reorders a registered callback or a device
      call. */
  lemma {:induction false} ExecExtends(w: World, s: State, c: Command)
    ensures Extends(s, Exec(w, s, c).0)
    decreases c, 1
  {
    match c
    case Color(oid, ts, sp, target, color) =>
      ExecColorExtends(w, s, oid, ts, sp, target, color);
    case Condition(cmp, ifc, elsec) =>
      var (s1, h) := Read(w, s, cmp);
      if h.Ok? {
        ExecAllExtends(w, s1, ifc);
        ExecAllExtends(w, s1, elsec);
        ExtendsTrans(s, s1, ExecAll(w, s1, ifc).0);
        ExtendsTrans(s, s1, ExecAll(w, s1, elsec).0);
      }
    case Callback(cmp, sub) =>
    case Group(_, _, _) =>
    case Require(_) =>
  }

  lemma ExecColorExtends(w: World, s: State, oid: nat, ts: seq<string>, sp: Option<string>, target: string, color: string)
    ensures Extends(s, ExecColor(w, s, oid, ts, sp, target, color).0)
  {
    var devs := Collect(w.devices, s.groups, ts);
    if devs.Ok? {
      if target == "ring" {
        var ring := RingSpecifier(CurrentSpecifier(s, oid, sp));
        if ring.Ok? {
          LogExtends(s, s.(specifiers := s.specifiers[oid := Word(ring.value)]), devs.value, RingOp(ring.value), color);
        }
      } else if target == "column" {
        var column := ColumnSpecifier(CurrentSpecifier(s, oid, sp));
        if column.Ok? {
          LogExtends(s, s.(specifiers := s.specifiers[oid := column.value]), devs.value, ColumnOp(column.value), color);
        }
      } else if target == "" {
        LogExtends(s, s, devs.value, FillOp, color);
      }
    }
  }

  /** Logging device calls, after a change of the specifiers alone, keeps
      what was there. */
  lemma LogExtends(s: State, s': State, devs: seq<Option<Device>>, op: Op, color: string)
    requires s' == s.(specifiers := s'.specifiers)
    ensures Extends(s, Log(s', devs, op, color).0)
  {
    ApplyExtends(s.log, devs, op, color);
  }

  lemma {:induction false} ExecAllExtends(w: World, s: State, cs: seq<Command>)
    ensures Extends(s, ExecAll(w, s, cs).0)
    decreases cs, 0
  {
    if cs != [] {
      ExecExtends(w, s, cs[0]);
      var t := Exec(w, s, cs[0]).0;
      if Exec(w, s, cs[0]).1.Ok? {
        ExecAllExtends(w, t, cs[1..]);
        ExtendsTrans(s, t, ExecAll(w, t, cs[1..]).0);
      }
    }
  }

  /** Running the callbacks does not remove or reorder them either. */
  lemma {:induction false} CallbacksFromExtends(w: World, s: State, i: nat, fuel: nat)
    ensures Extends(s, CallbacksFrom(w, s, i, fuel).0)
    decreases fuel
  {
    if i < |s.callbacks| && fuel > 0 {
      var (s1, h) := Read(w, s, s.callbacks[i].0);
      if h.Ok? {
        if !h.value {
          CallbacksFromExtends(w, s1, i + 1, fuel - 1);
          ExtendsTrans(s, s1, CallbacksFrom(w, s1, i + 1, fuel - 1).0);
        } else {
          ExecAllExtends(w, s1, s.callbacks[i].1);
          ExtendsTrans(s, s1, ExecAll(w, s1, s.callbacks[i].1).0);
          var s2 := ExecAll(w, s1, s.callbacks[i].1).0;
          if ExecAll(w, s1, s.callbacks[i].1).1.Ok? {
            CallbacksFromExtends(w, s2, i + 1, fuel - 1);
            ExtendsTrans(s, s2, CallbacksFrom(w, s2, i + 1, fuel - 1).0);
          }
        }
      }
    }
  }

  /** `Group` stores under its name exactly the devices its names resolve
      to that exist, in order; no other group changes, and only the
      command's own `groupname` is marked overwritten. */
  lemma GroupStores(w: World, s: State, oid: nat, ids: seq<string>, name: string)
    requires ResolveFrom(w.devices, [], ids).Ok? && oid !in s.renamed
    ensures Exec(w, s, Group(oid, ids, name)) == ExecGroup(w, s, oid, ids, name)
    ensures ExecGroup(w, s, oid, ids, name).1 == Ok(())
    ensures var stored := Present(ResolveFrom(w.devices, [], ids).value);
      ExecGroup(w, s, oid, ids, name).0 == s.(groups := s.groups[name := stored], renamed := s.renamed + {oid})
  {
  }

  /** The devices a `Group` command stores are exactly those its names
      resolve to. */
  lemma GroupMembers(devices: seq<string>, ids: seq<string>)
    requires ResolveFrom(devices, [], ids).Ok?
    ensures forall d :: d in Present(ResolveFrom(devices, [], ids).value) <==>
      exists i :: 0 <= i < |ids| && Resolve(devices, ids[i]) == Ok(Some(d))
  {
    var rs := ResolveFrom(devices, [], ids).value;
    forall d: Device ensures Some(d) in rs <==> exists i :: 0 <= i < |ids| && Resolve(devices, ids[i]) == Ok(Some(d)) {
      if Some(d) in rs {
        var i :| 0 <= i < |rs| && rs[i] == Some(d);
        assert Resolve(devices, ids[i]) == Ok(Some(d));
      }
    }
  }

  /** A `Group` command fails when it runs again (inside a callback or a
      condition run several times): its `groupname` is a string by then. */
  lemma GroupTwiceFails(w: World, s: State, oid: nat, ids: seq<string>, name: string)
    requires Exec(w, s, Group(oid, ids, name)).1.Ok?
    ensures Exec(w, Exec(w, s, Group(oid, ids, name)).0, Group(oid, ids, name)).1 == Err(AttributeError)
  {
  }

  /** `Color` without a target fills every collected device, in the order
      of the targets, when all of them are found. */
  lemma ColorFillsAll(w: World, s: State, oid: nat, ts: seq<string>, sp: Option<string>, color: string)
    requires Collect(w.devices, s.groups, ts).Ok?
    requires forall i :: 0 <= i < |Collect(w.devices, s.groups, ts).value| ==> Collect(w.devices, s.groups, ts).value[i].Some?
    ensures Exec(w, s, Color(oid, ts, sp, "", color)) ==
      (s.(log := s.log + Actions(Present(Collect(w.devices, s.groups, ts).value), FillOp, color)), Ok(()))
  {
    ApplyAllPresent(s.log, Collect(w.devices, s.groups, ts).value, FillOp, color);
  }

  /** The `'column'` target maps the specifier through ENUMERATION_WORDS
      (keeping a word it does not list), stores it in the command, and sets
      that column on every collected device, in order. */
  lemma ColorColumn(w: World, s: State, oid: nat, ts: seq<string>, word: string, color: string)
    requires oid !in s.specifiers && Collect(w.devices, s.groups, ts).Ok?
    requires forall i :: 0 <= i < |Collect(w.devices, s.groups, ts).value| ==> Collect(w.devices, s.groups, ts).value[i].Some?
    ensures var column := if Lower(word) in EnumerationWords then Index(EnumerationWords[Lower(word)]) else Word(word);
      Exec(w, s, Color(oid, ts, Some(word), "column", color)) ==
      (s.(specifiers := s.specifiers[oid := column],
          log := s.log + Actions(Present(Collect(w.devices, s.groups, ts).value), ColumnOp(column), color)), Ok(()))
  {
    var column := EnumerationWordOr(word);
    ApplyAllPresent(s.log, Collect(w.devices, s.groups, ts).value, ColumnOp(column), color);
  }

  /** Calls that all succeed were made on devices that are all there. */
  lemma {:induction false} ApplyOkAllPresent(log: seq<Action>, devs: seq<Option<Device>>, op: Op, color: string)
    requires Apply(log, devs, op, color).1.Ok?
    ensures forall i :: 0 <= i < |devs| ==> devs[i].Some?
    decreases |devs|
  {
    if devs != [] {
      ApplyOkAllPresent(log + [ActionFor(op, devs[0].value, color)], devs[1..], op, color);
      forall i | 0 < i < |devs| ensures devs[i].Some? {
        assert devs[i] == devs[1..][i - 1];
      }
    }
  }

  /** Logging calls on devices that are all there appends one call per
      device; logging calls that succeed was on such devices. */
  lemma LogAllPresent(s: State, devs: seq<Option<Device>>, op: Op, color: string)
    requires Log(s, devs, op, color).1.Ok? || forall i :: 0 <= i < |devs| ==> devs[i].Some?
    ensures forall i :: 0 <= i < |devs| ==> devs[i].Some?
    ensures Log(s, devs, op, color) == (s.(log := s.log + Actions(Present(devs), op, color)), Ok(()))
  {
    if Log(s, devs, op, color).1.Ok? {
      ApplyOkAllPresent(s.log, devs, op, color);
    }
    ApplyAllPresent(s.log, devs, op, color);
  }

  /** Running a `'ring'` command again, once it has succeeded, reads the
      word its first run stored. That word is already lower-cased and not
      listed in ENUMERATION_WORDS, so the second run keeps it and repeats
      the first run's calls, and changes nothing else. */
  lemma RingRerun(w: World, s: State, oid: nat, ts: seq<string>, sp: Option<string>, color: string)
    requires Exec(w, s, Color(oid, ts, sp, "ring", color)).1.Ok?
    ensures var s1 := Exec(w, s, Color(oid, ts, sp, "ring", color)).0;
      |s.log| <= |s1.log| &&
      Exec(w, s1, Color(oid, ts, sp, "ring", color)) == (s1.(log := s1.log + s1.log[|s.log|..]), Ok(()))
  {
    var first := ExecColor(w, s, oid, ts, sp, "ring", color);
    var collected := Collect(w.devices, s.groups, ts);
    var ring := RingSpecifier(CurrentSpecifier(s, oid, sp));
    assert collected.Ok? && ring.Ok?;
    var sw := s.(specifiers := s.specifiers[oid := Word(ring.value)]);
    assert first == Log(sw, collected.value, RingOp(ring.value), color);
    LogAllPresent(sw, collected.value, RingOp(ring.value), color);
    var calls := Actions(Present(collected.value), RingOp(ring.value), color);
    var s1 := first.0;
    assert s1 == sw.(log := s.log + calls);
    assert s1.log[|s.log|..] == calls;
    LowerIdempotent(CurrentSpecifier(s, oid, sp).value.word);
    assert CurrentSpecifier(s1, oid, sp) == Some(Word(ring.value));
    assert RingSpecifier(CurrentSpecifier(s1, oid, sp)) == ring;
    assert s1.(specifiers := s1.specifiers[oid := Word(ring.value)]) == s1;
    LogAllPresent(s1, collected.value, RingOp(ring.value), color);
  }

  /** Running a `'column'` command again, once it has succeeded, reads the
      specifier its first run stored. A word that ENUMERATION_WORDS lists
      was stored as a position, and the second run raises AttributeError
      (`.lower()` on a number) before any call. Any other word was kept,
      and the second run repeats the first run's calls. */
  lemma ColumnRerun(w: World, s: State, oid: nat, ts: seq<string>, word: string, color: string)
    requires oid !in s.specifiers
    requires Exec(w, s, Color(oid, ts, Some(word), "column", color)).1.Ok?
    ensures var s1 := Exec(w, s, Color(oid, ts, Some(word), "column", color)).0;
      |s.log| <= |s1.log| &&
      Exec(w, s1, Color(oid, ts, Some(word), "column", color)) ==
        if Lower(word) in EnumerationWords then (s1, Err(AttributeError))
        else (s1.(log := s1.log + s1.log[|s.log|..]), Ok(()))
  {
    var first := ExecColor(w, s, oid, ts, Some(word), "column", color);
    var collected := Collect(w.devices, s.groups, ts);
    var column := EnumerationWordOr(word);
    assert collected.Ok?;
    assert ColumnSpecifier(CurrentSpecifier(s, oid, Some(word))) == Ok(column);
    var sw := s.(specifiers := s.specifiers[oid := column]);
    assert first == Log(sw, collected.value, ColumnOp(column), color);
    LogAllPresent(sw, collected.value, ColumnOp(column), color);
    var calls := Actions(Present(collected.value), ColumnOp(column), color);
    var s1 := first.0;
    assert s1 == sw.(log := s.log + calls);
    assert s1.log[|s.log|..] == calls;
    assert CurrentSpecifier(s1, oid, Some(word)) == Some(column);
    if Lower(word) !in EnumerationWords {
      assert ColumnSpecifier(CurrentSpecifier(s1, oid, Some(word))) == Ok(column);
      assert s1.(specifiers := s1.specifiers[oid := column]) == s1;
      LogAllPresent(s1, collected.value, ColumnOp(column), color);
    }
  }

  /** A target other than `'ring'`, `'column'` or none is a syntax error,
      raised before any device call; a target that cannot be resolved
      raises KeyError first. */
  lemma ColorOtherTarget(w: World, s: State, oid: nat, ts: seq<string>, sp: Option<string>, target: string, color: string)
    requires target != "ring" && target != "column" && target != ""
    ensures Collect(w.devices, s.groups, ts).Ok? ==> Exec(w, s, Color(oid, ts, sp, target, color)) == (s, Err(DslSyntaxError))
    ensures Collect(w.devices, s.groups, ts).Err? ==> Exec(w, s, Color(oid, ts, sp, target, color)) == (s, Err(KeyError))
  {
  }

  /** `Color.execute` as written: the grammar makes `specifier` an
      `Identifier` object, and the ring and column branches call `lower()`
      on that object instead of on its `id`, which raises AttributeError
      once the targets are collected.  `ExecColor` reads the word (`id`). */
  function ExecColorAsWritten(w: World, s: State, oid: nat, ts: seq<string>, sp: Option<string>,
                              target: string, color: string): (r: (State, Result<()>))
    ensures Collect(w.devices, s.groups, ts).Ok? && (target == "ring" || target == "column") ==>
      r == (s, Err(AttributeError))
    ensures target != "ring" && target != "column" ==> r == ExecColor(w, s, oid, ts, sp, target, color)
  {
    var devs := Collect(w.devices, s.groups, ts);
    if devs.Err? then (s, Err(devs.error))
    else if target == "ring" || target == "column" then (s, Err(AttributeError))
    else ExecColor(w, s, oid, ts, sp, target, color)
  }

  /** `color LaumioA top column in red` on a context holding LaumioA and
      no group of that name: as
      written the command raises AttributeError and sets nothing; reading
      the specifier's word sets the top column (position 2) of the device. */
  lemma ColumnSpecifierObjectFails(s: State, pressed: (nat, int) -> bool)
    requires s.specifiers == map[] && "LaumioA" !in s.groups
    ensures var w := World(["LaumioA"], pressed);
      ExecColorAsWritten(w, s, 0, ["LaumioA"], Some("top"), "column", "red") == (s, Err(AttributeError)) &&
      ExecColor(w, s, 0, ["LaumioA"], Some("top"), "column", "red") ==
        (s.(specifiers := map[0 := Index(2)], log := s.log + [SetColumn(0, Index(2), "red")]), Ok(()))
  {
    var w := World(["LaumioA"], pressed);
    assert NameOf("LaumioA") == Ok("LaumioA") by {
      assert !IsDigit("LaumioA"[0]);
    }
    assert Resolve(w.devices, "LaumioA") == Ok(Some(0));
    CollectSingle(w.devices, s.groups, "LaumioA");
    assert Lower("top") == "top";
  }

  /** A condition runs only the branch its comparison selects: the other
      branch's commands play no part. */
  lemma ConditionRunsOneBranch(w: World, s: State, cmp: Comparison, ifc: seq<Command>, elsec: seq<Command>, other: seq<Command>)
    requires w.devices != []
    ensures var holds := w.pressed(s.presses, cmp.button) != cmp.negation;
      var s1 := s.(presses := s.presses + 1);
      Exec(w, s, Condition(cmp, ifc, elsec)) == ExecAll(w, s1, if holds then ifc else elsec) &&
      (holds ==> Exec(w, s, Condition(cmp, ifc, other)) == Exec(w, s, Condition(cmp, ifc, elsec))) &&
      (!holds ==> Exec(w, s, Condition(cmp, other, elsec)) == Exec(w, s, Condition(cmp, ifc, elsec)))
  {
  }

  /** Without devices a condition raises IndexError before running anything. */
  lemma ConditionWithoutDevices(w: World, s: State, cmp: Comparison, ifc: seq<Command>, elsec: seq<Command>)
    requires w.devices == []
    ensures Exec(w, s, Condition(cmp, ifc, elsec)) == (s, Err(IndexError))
  {
  }

  /** A callback command registers exactly one callback, last, and changes
      nothing else. */
  lemma CallbackAppendsOne(w: World, s: State, cmp: Comparison, sub: seq<Command>)
    ensures var t := Exec(w, s, Callback(cmp, sub));
      t.1 == Ok(()) && |t.0.callbacks| == |s.callbacks| + 1 &&
      t.0.callbacks[..|s.callbacks|] == s.callbacks && t.0.callbacks[|s.callbacks|] == (cmp, sub) &&
      t.0 == s.(callbacks := t.0.callbacks)
  {
    assert (s.callbacks + [(cmp, sub)])[..|s.callbacks|] == s.callbacks;
  }

  /** Running a list of commands is running its first part, then, unless
      that failed, the rest. */
  lemma {:induction false} ExecAllConcat(w: World, s: State, a: seq<Command>, b: seq<Command>)
    ensures ExecAll(w, s, a + b) ==
      (var (t, res) := ExecAll(w, s, a); if res.Err? then (t, res) else ExecAll(w, t, b))
    decreases |a|
  {
    if a == [] {
      assert a + b == b;
    } else {
      assert (a + b)[0] == a[0] && (a + b)[1..] == a[1..] + b;
      var (t, res) := Exec(w, s, a[0]);
      if res.Ok? {
        ExecAllConcat(w, t, a[1..], b);
      }
    }
  }

  /** A callback whose condition does not hold costs one button read and
      nothing else; one that holds runs its commands before the next
      callback is looked at. */
  lemma CallbackStep(w: World, s: State, i: nat, fuel: nat)
    requires i < |s.callbacks| && w.devices != []
    ensures var holds := w.pressed(s.presses, s.callbacks[i].0.button) != s.callbacks[i].0.negation;
      var s1 := s.(presses := s.presses + 1);
      (!holds ==> CallbacksFrom(w, s, i, fuel + 1) == CallbacksFrom(w, s1, i + 1, fuel)) &&
      (holds && ExecAll(w, s1, s.callbacks[i].1).1.Ok? ==>
        CallbacksFrom(w, s, i, fuel + 1) == CallbacksFrom(w, ExecAll(w, s1, s.callbacks[i].1).0, i + 1, fuel))
  {
  }

  // ---------------------------------------------------------------------
  // The interpreter object

  /** The context of `interpret_string`, updated in place by the commands. */
  class Interpreter {
    const world: World
    var groups: map<string, seq<Device>>
    var callbacks: seq<Registered>
    var presses: nat
    var renamed: set<nat>
    var specifiers: map<nat, Spec>
    var log: seq<Action>

    function St(): State
      reads this
    {
      State(groups, callbacks, presses, renamed, specifiers, log)
    }

    /** A fresh context over the given devices: no group, no callback. */
    constructor (devices: seq<string>, pressed: (nat, int) -> bool)
      ensures world == World(devices, pressed)
      ensures St() == State(map[], [], 0, {}, map[], [])
    {
      world := World(devices, pressed);
      groups := map[];
      callbacks := [];
      presses := 0;
      renamed := {};
      specifiers := map[];
      log := [];
    }

    /** `laumio_from_name_or_id`: the first device with the name, looked
        for in order. */
    method GetLaumio(s: string) returns (r: Result<Option<Device>>)
      ensures r == Resolve(world.devices, s)
    {
      var name := NameOf(s);
      if name.Err? {
        return Err(name.error);
      }
      var j := 0;
      while j < |world.devices|
        invariant 0 <= j <= |world.devices|
        invariant FirstNamedFrom(world.devices, name.value, 0) == FirstNamedFrom(world.devices, name.value, j)
      {
        if world.devices[j] == name.value {
          return Ok(Some(j));
        }
        j := j + 1;
      }
      return Ok(None);
    }

    /** The `ButtonComparison` condition, read once. */
    method Evaluate(cmp: Comparison) returns (r: Result<bool>)
      modifies this
      ensures (St(), r) == Read(world, old(St()), cmp)
    {
      if |world.devices| == 0 {
        return Err(IndexError);
      }
      var pressed := world.pressed(presses, cmp.button);
      presses := presses + 1;
      r := Ok(if cmp.negation then !pressed else pressed);
    }

    /** `Group.execute`. */
    method ExecuteGroup(oid: nat, ids: seq<string>, name: string) returns (r: Result<()>)
      modifies this
      ensures (St(), r) == Exec(world, old(St()), Group(oid, ids, name))
    {
      var rs: seq<Option<Device>> := [];
      var j := 0;
      while j < |ids|
        invariant 0 <= j <= |ids|
        invariant ResolveFrom(world.devices, [], ids) == ResolveFrom(world.devices, rs, ids[j..])
        invariant St() == old(St())
      {
        var d := GetLaumio(ids[j]);
        if d.Err? {
          return Err(d.error);
        }
        assert ids[j..][1..] == ids[j + 1..];
        rs := rs + [d.value];
        j := j + 1;
      }
      if oid in renamed {
        return Err(AttributeError);
      }
      renamed := renamed + {oid};
      groups := groups[name := Present(rs)];
      return Ok(());
    }

    /** The devices a `Color` command collects, target by target. */
    method Collected(ts: seq<string>) returns (r: Result<seq<Option<Device>>>)
      ensures r == Collect(world.devices, groups, ts)
    {
      var laumios: seq<Option<Device>> := [];
      var j := 0;
      while j < |ts|
        invariant 0 <= j <= |ts|
        invariant Collect(world.devices, groups, ts) == CollectFrom(world.devices, groups, laumios, ts[j..])
      {
        assert ts[j..][1..] == ts[j + 1..];
        if ts[j] in groups {
          laumios := laumios + Somes(groups[ts[j]]);
        } else {
          var d := GetLaumio(ts[j]);
          if d.Err? {
            return Err(d.error);
          }
          laumios := laumios + [d.value];
        }
        j := j + 1;
      }
      return Ok(laumios);
    }

    /** The device calls of a `Color` command, one collected device after
        another. */
    method ApplyTo(devs: seq<Option<Device>>, op: Op, color: string) returns (r: Result<()>)
      modifies this
      ensures (log, r) == Apply(old(log), devs, op, color)
      ensures St() == old(St()).(log := log)
    {
      var j := 0;
      while j < |devs|
        invariant 0 <= j <= |devs|
        invariant Apply(old(log), devs, op, color) == Apply(log, devs[j..], op, color)
        invariant St() == old(St()).(log := log)
      {
        assert devs[j..][1..] == devs[j + 1..];
        if devs[j].None? {
          return Err(AttributeError);
        }
        log := log + [ActionFor(op, devs[j].value, color)];
        j := j + 1;
      }
      return Ok(());
    }

    /** `Color.execute`. */
    method ExecuteColor(oid: nat, ts: seq<string>, sp: Option<string>, target: string, color: string) returns (r: Result<()>)
      modifies this
      ensures (St(), r) == ExecColor(world, old(St()), oid, ts, sp, target, color)
    {
      var devs := Collected(ts);
      if devs.Err? {
        return Err(devs.error);
      }
      if target == "ring" {
        var ring := RingSpecifier(CurrentSpecifier(St(), oid, sp));
        if ring.Err? {
          return Err(ring.error);
        }
        specifiers := specifiers[oid := Word(ring.value)];
        r := ApplyTo(devs.value, RingOp(ring.value), color);
      } else if target == "column" {
        var column := ColumnSpecifier(CurrentSpecifier(St(), oid, sp));
        if column.Err? {
          return Err(column.error);
        }
        specifiers := specifiers[oid := column.value];
        r := ApplyTo(devs.value, ColumnOp(column.value), color);
      } else if target == "" {
        r := ApplyTo(devs.value, FillOp, color);
      } else {
        r := Err(DslSyntaxError);
      }
    }

    /** `command.execute(context, callbacks)`. */
    method Execute(c: Command) returns (r: Result<()>)
      modifies this
      ensures (St(), r) == Exec(world, old(St()), c)
      decreases c, 1
    {
      match c
      case Require(_) =>
        r := Err(AttributeError);
      case Group(oid, ids, name) =>
        r := ExecuteGroup(oid, ids, name);
      case Color(oid, ts, sp, target, color) =>
        r := ExecuteColor(oid, ts, sp, target, color);
      case Condition(cmp, ifc, elsec) =>
        r := ExecuteCondition(c);
      case Callback(cmp, sub) =>
        callbacks := callbacks + [(cmp, sub)];
        r := Ok(());
    }

    /** `Condition.execute`: the if-commands when the comparison holds, the
        else-commands otherwise. */
    method ExecuteCondition(c: Command) returns (r: Result<()>)
      requires c.Condition?
      modifies this
      ensures (St(), r) == Exec(world, old(St()), c)
      decreases c, 0
    {
      var holds := Evaluate(c.comparison);
      if holds.Err? {
        return Err(holds.error);
      }
      if holds.value {
        r := ExecuteAll(c.ifCommands);
      } else {
        r := ExecuteAll(c.elseCommands);
      }
    }

    /** The commands one after another, up to the first error. */
    method ExecuteAll(cs: seq<Command>) returns (r: Result<()>)
      modifies this
      ensures (St(), r) == ExecAll(world, old(St()), cs)
      decreases cs, 2
    {
      var j := 0;
      while j < |cs|
        invariant 0 <= j <= |cs|
        invariant ExecAll(world, old(St()), cs) == ExecAll(world, St(), cs[j..])
      {
        assert cs[j..][0] == cs[j] && cs[j..][1..] == cs[j + 1..];
        r := Execute(cs[j]);
        if r.Err? {
          return r;
        }
        j := j + 1;
      }
      return Ok(());
    }

    /** `call_callbacks`: each registered callback, in order, including
        those registered while the loop runs. */
    method CallCallbacks(fuel: nat) returns (r: Result<()>)
      modifies this
      ensures (St(), r) == CallbacksFrom(world, old(St()), 0, fuel)
    {
      var i := 0;
      var f := fuel;
      while i < |callbacks|
        invariant CallbacksFrom(world, old(St()), 0, fuel) == CallbacksFrom(world, St(), i, f)
        decreases f
      {
        if f == 0 {
          return Err(Diverges);
        }
        var (cmp, sub) := callbacks[i];
        var holds := Evaluate(cmp);
        if holds.Err? {
          return Err(holds.error);
        }
        if holds.value {
          var res := ExecuteAll(sub);
          if res.Err? {
            return res;
          }
        }
        i := i + 1;
        f := f - 1;
      }
      return Ok(());
    }

    /** The command loop of `interpret_string`: each command, then the
        callbacks. */
    method Interpret(cs: seq<Command>, fuel: nat) returns (r: Result<()>)
      modifies this
      ensures (St(), r) == RunFrom(world, old(St()), cs, fuel)
    {
      var j := 0;
      while j < |cs|
        invariant 0 <= j <= |cs|
        invariant RunFrom(world, old(St()), cs, fuel) == RunFrom(world, St(), cs[j..], fuel)
      {
        assert cs[j..][0] == cs[j] && cs[j..][1..] == cs[j + 1..];
        r := Execute(cs[j]);
        if r.Err? {
          return r;
        }
        r := CallCallbacks(fuel);
        if r.Err? {
          return r;
        }
        j := j + 1;
      }
      return Ok(());
    }
  }
}
