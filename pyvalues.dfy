/** The Python values the renderers pass around as "tagged trees": strings,
    tuples, lists, None and the type object `str` (which
    `render_arpeggio_sequence` puts at the head of a literal).  The functions
    here give Python's `len`, indexing, iteration and truthiness on them. */
module PyValues {
  import opened Common

  datatype PyVal =
    | PyStr(s: string)
    | PyTuple(elems: seq<PyVal>)
    | PyList(elems: seq<PyVal>)
    | PyNone
    | PyStrType

  predicate IsSeq(v: PyVal) {
    v.PyTuple? || v.PyList?
  }

  /** Python's `len(v)`. */
  function Len(v: PyVal): Result<nat> {
    match v
    case PyStr(s) => Ok(|s|)
    case PyTuple(es) => Ok(|es|)
    case PyList(es) => Ok(|es|)
    case _ => Err(TypeError)
  }

  /** What a `for` loop over `v` visits: the items of a tuple or list, the
      one-character strings of a string. */
  function Items(v: PyVal): (r: Result<seq<PyVal>>)
    ensures r.Ok? <==> Len(v).Ok?
    ensures r.Ok? ==> |r.value| == Len(v).value
  {
    match v
    case PyStr(s) => Ok(seq(|s|, i requires 0 <= i < |s| => PyStr([s[i]])))
    case PyTuple(es) => Ok(es)
    case PyList(es) => Ok(es)
    case _ => Err(TypeError)
  }

  /** Python's `v[0]` on a value whose `len` is positive. */
  function First(v: PyVal): PyVal
    requires Len(v).Ok? && Len(v).value > 0
  {
    Items(v).value[0]
  }

  /** Python's `str(v)`, as an f-string formats `v`; the text of a tuple or
      list (Python's `repr` of each item) is not modelled. */
  function PyStrOf(v: PyVal): (r: Result<string>)
    ensures v.PyStr? ==> r == Ok(v.s)
    ensures r.Ok? <==> !IsSeq(v)
  {
    match v
    case PyStr(s) => Ok(s)
    case PyNone => Ok("None")
    case PyStrType => Ok("<class 'str'>")
    case _ => Err(Unmodelled)
  }

  /** The value can be put in a set or used as a dictionary key: no list
      anywhere in it. */
  predicate Hashable(v: PyVal)
    decreases v
  {
    match v
    case PyList(_) => false
    case PyTuple(es) => forall i :: 0 <= i < |es| ==> Hashable(es[i])
    case _ => true
  }

  /** Python's `bool(v)`. */
  predicate Truthy(v: PyVal) {
    match v
    case PyStr(s) => s != ""
    case PyTuple(es) => es != []
    case PyList(es) => es != []
    case PyNone => false
    case PyStrType => true
  }

  /** A measure that every item of a tuple or list, and every one-character
      string of a string held in one, is below. */
  function Size(v: PyVal): nat {
    match v
    case PyTuple(es) => 1 + SizeSum(es)
    case PyList(es) => 1 + SizeSum(es)
    case _ => 1
  }

  function SizeSum(vs: seq<PyVal>): nat {
    if vs == [] then 0 else Size(vs[0]) + SizeSum(vs[1..])
  }

  lemma {:induction false} SizeSumBounds(vs: seq<PyVal>, i: nat)
    requires i < |vs|
    ensures Size(vs[i]) <= SizeSum(vs)
    ensures SizeSum(vs[i + 1..]) < SizeSum(vs)
  {
    if i > 0 {
      SizeSumBounds(vs[1..], i - 1);
      assert vs[1..][i - 1..] == vs[i..];
      assert vs[1..][i..] == vs[i + 1..];
    }
  }

  /** Each item `v` iterates to is smaller than `v`, unless `v` is a string. */
  lemma ItemsSmaller(v: PyVal, i: nat)
    requires IsSeq(v) && i < |v.elems|
    ensures Size(v.elems[i]) < Size(v)
    ensures Size(PyList(v.elems[i + 1..])) < Size(v)
  {
    SizeSumBounds(v.elems, i);
  }

  lemma AllItemsSmaller(v: PyVal)
    requires IsSeq(v)
    ensures forall i :: 0 <= i < |v.elems| ==> Size(v.elems[i]) < Size(v)
  {
    forall i | 0 <= i < |v.elems| ensures Size(v.elems[i]) < Size(v) {
      ItemsSmaller(v, i);
    }
  }

  lemma AllItemsNotLarger(v: PyVal)
    requires Items(v).Ok?
    ensures forall i :: 0 <= i < |Items(v).value| ==> Size(Items(v).value[i]) <= Size(v)
  {
    forall i | 0 <= i < |Items(v).value| ensures Size(Items(v).value[i]) <= Size(v) {
      ItemsNotLarger(v, i);
    }
  }

  /** Whatever `v` iterates to is no larger than `v`. */
  lemma ItemsNotLarger(v: PyVal, i: nat)
    requires Items(v).Ok? && i < |Items(v).value|
    ensures Size(Items(v).value[i]) <= Size(v)
  {
    if IsSeq(v) {
      ItemsSmaller(v, i);
    }
  }

  /** Python's `v.lower()`: only a string has the method; on the type `str`
      it is an unbound method called without its argument. */
  function LowerOf(v: PyVal): (r: Result<string>)
    ensures v.PyStr? ==> r == Ok(Lower(v.s))
    ensures r.Ok? <==> v.PyStr?
  {
    match v
    case PyStr(s) => Ok(Lower(s))
    case PyStrType => Err(TypeError)
    case _ => Err(AttributeError)
  }

  /** Python's `v.upper()`. */
  function UpperOf(v: PyVal): (r: Result<string>)
    ensures v.PyStr? ==> r == Ok(Upper(v.s))
    ensures r.Ok? <==> v.PyStr?
  {
    match v
    case PyStr(s) => Ok(Upper(s))
    case PyStrType => Err(TypeError)
    case _ => Err(AttributeError)
  }

  /** Python's `while len(v) == 1: v, = v`.  On a one-character string the
      loop never exits (`"a"` unpacks to `"a"`); the result is then
      `Err(Diverges)`. */
  function Unwrap(v: PyVal): (r: Result<PyVal>)
    ensures r.Ok? ==> Len(r.value).Ok? && Len(r.value).value != 1
    ensures r.Ok? ==> Size(r.value) <= Size(v)
    ensures r == Err(Diverges) || r == Err(TypeError) || r.Ok?
    decreases Size(v)
  {
    match v
    case PyStr(s) => if |s| == 1 then Err(Diverges) else Ok(v)
    case PyTuple(es) =>
      if |es| == 1 then (ItemsSmaller(v, 0); Unwrap(es[0])) else Ok(v)
    case PyList(es) =>
      if |es| == 1 then (ItemsSmaller(v, 0); Unwrap(es[0])) else Ok(v)
    case _ => Err(TypeError)
  }

  /** The unwrapping loop stops at the first value whose length is not one,
      and leaves such a value alone. */
  lemma UnwrapKeepsNonSingleton(v: PyVal)
    requires Len(v).Ok? && Len(v).value != 1
    ensures Unwrap(v) == Ok(v)
  {
  }

  /** A one-element tuple or list unwraps exactly as its element does. */
  lemma UnwrapSingleton(x: PyVal)
    ensures Unwrap(PyTuple([x])) == Unwrap(x)
    ensures Unwrap(PyList([x])) == Unwrap(x)
  {
  }

  /** `Unwrap` is idempotent: the loop's exit condition holds of its result. */
  lemma UnwrapIdempotent(v: PyVal)
    requires Unwrap(v).Ok?
    ensures Unwrap(Unwrap(v).value) == Unwrap(v)
  {
  }
}
