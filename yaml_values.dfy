/** The values the Teuchos YAML reader and writer move between: the parameter
    list with its typed entries, the dynamically typed values the reader's
    reduction actions pass around, and the errors they raise. */
module YamlValues {
  import opened Wrappers

  /** The C++ `int` of the entries: 32-bit two's complement. */
  newtype Int32 = x: int | -0x8000_0000 <= x < 0x8000_0000

  const Int32Min: int := -0x8000_0000
  const Int32Max: int := 0x7fff_ffff

  /** A `double` is kept abstract: it is known by the text the output stream
      prints for it (or, on the reading side, by the numeral it was read from). */
  datatype Double = Double(text: string)

  /** Teuchos::TwoDArray: `rows` by `cols` cells stored row by row. */
  datatype TwoD<T> = TwoD(rows: nat, cols: nat, data: seq<T>)
  {
    predicate Valid() {
      |data| == rows * cols
    }

    /** The cell in row `i`, column `j` (TwoDArray's operator()). */
    function Cell(i: nat, j: nat): T
      requires Valid() && i < rows && j < cols
    {
      CellIndexBound(i, j, rows, cols);
      data[i * cols + j]
    }
  }

  lemma {:induction false} CellIndexBound(i: nat, j: nat, rows: nat, cols: nat)
    requires i < rows && j < cols
    ensures i * cols + j < rows * cols
  {
    assert (i + 1) * cols <= rows * cols;
  }

  /** The kinds of ParameterEntry value the writer distinguishes; `Other` stands
      for any value type it has no branch for (a scalar, an array or a 2-D array
      of some other element type). */
  datatype Entry =
    | IntE(i: Int32)
    | DoubleE(d: Double)
    | StringE(s: string)
    | BoolE(b: bool)
    | IntArrayE(ia: seq<Int32>)
    | DoubleArrayE(da: seq<Double>)
    | StringArrayE(sa: seq<string>)
    | IntGridE(ig: TwoD<Int32>)
    | DoubleGridE(dg: TwoD<Double>)
    | StringGridE(sg: TwoD<string>)
    | ListE(list: ParameterList)
    | OtherE(kind: OtherKind)

  datatype OtherKind = OtherScalar | OtherArray | OtherGrid

  /** A ParameterList: named entries in insertion order, names distinct. */
  datatype ParameterList = ParameterList(params: seq<Param>)
  datatype Param = Param(name: string, entry: Entry)

  predicate DistinctNames(pl: ParameterList) {
    forall i, j :: 0 <= i < j < |pl.params| ==> pl.params[i].name != pl.params[j].name
  }

  function Names(pl: ParameterList): (r: seq<string>)
    ensures |r| == |pl.params|
    ensures forall i :: 0 <= i < |r| ==> r[i] == pl.params[i].name
  {
    seq(|pl.params|, i requires 0 <= i < |pl.params| => pl.params[i].name)
  }

  /** Position of the first occurrence of `name`, or `|names|` when absent. */
  function IndexOf(names: seq<string>, name: string): (r: nat)
    ensures r <= |names|
    ensures r < |names| ==> names[r] == name
    ensures forall k :: 0 <= k < r ==> names[k] != name
  {
    if |names| == 0 then 0
    else if names[0] == name then 0
    else 1 + IndexOf(names[1..], name)
  }

  lemma {:induction false} IndexOfSnoc(names: seq<string>, x: string, name: string)
    ensures IndexOf(names + [x], name) == if name in names then IndexOf(names, name) else if x == name then |names| else |names| + 1
  {
    if |names| == 0 {
      assert names + [x] == [x];
    } else {
      assert (names + [x])[0] == names[0];
      assert (names + [x])[1..] == names[1..] + [x];
      if names[0] != name {
        IndexOfSnoc(names[1..], x, name);
        assert name in names <==> name in names[1..];
      }
    }
  }

  /** The value stored under `name`, if any. */
  function Lookup(pl: ParameterList, name: string): (r: Option<Entry>)
    ensures r.None? <==> name !in Names(pl)
    ensures r.Some? ==> exists i :: 0 <= i < |pl.params| && pl.params[i] == Param(name, r.value)
  {
    var i := IndexOf(Names(pl), name);
    if i < |pl.params| then Some(pl.params[i].entry) else None
  }

  /** ParameterList::set, which the list itself implements: an existing name
      keeps its place and takes the new value, a new name is appended. */
  function Set(pl: ParameterList, name: string, e: Entry): (r: ParameterList)
  {
    var i := IndexOf(Names(pl), name);
    if i < |pl.params| then ParameterList(pl.params[i := Param(name, e)])
    else ParameterList(pl.params + [Param(name, e)])
  }

  /** Set stores the value under its name, keeps every other name's value, and
      either keeps the names or appends the new one. */
  lemma {:induction false} SetSpec(pl: ParameterList, name: string, e: Entry)
    ensures Lookup(Set(pl, name, e), name) == Some(e)
    ensures forall n :: n != name ==> Lookup(Set(pl, name, e), n) == Lookup(pl, n)
    ensures name in Names(pl) ==> Names(Set(pl, name, e)) == Names(pl)
    ensures name !in Names(pl) ==> Names(Set(pl, name, e)) == Names(pl) + [name]
  {
    var r := Set(pl, name, e);
    var i := IndexOf(Names(pl), name);
    if i < |pl.params| {
      assert Names(r) == Names(pl);
    } else {
      assert Names(r) == Names(pl) + [name];
      forall n
        ensures IndexOf(Names(r), n) == if n in Names(pl) then IndexOf(Names(pl), n) else if n == name then |Names(pl)| else |Names(pl)| + 1
      {
        IndexOfSnoc(Names(pl), name, n);
      }
    }
  }

  /** Set keeps the names of a list distinct. */
  lemma {:induction false} SetKeepsDistinct(pl: ParameterList, name: string, e: Entry)
    requires DistinctNames(pl)
    ensures DistinctNames(Set(pl, name, e))
  {
    SetSpec(pl, name, e);
    var r := Set(pl, name, e);
    forall i, j | 0 <= i < j < |r.params|
      ensures r.params[i].name != r.params[j].name
    {
      assert Names(r)[i] == r.params[i].name && Names(r)[j] == r.params[j].name;
      if name in Names(pl) {
        assert Names(pl)[i] == pl.params[i].name && Names(pl)[j] == pl.params[j].name;
      } else if j < |pl.params| {
        assert (Names(pl) + [name])[i] == Names(pl)[i] == pl.params[i].name;
        assert (Names(pl) + [name])[j] == Names(pl)[j] == pl.params[j].name;
      } else {
        assert (Names(pl) + [name])[j] == name;
        assert (Names(pl) + [name])[i] == Names(pl)[i];
      }
    }
  }

  /** Teuchos::any as the reader's actions see it: a scalar token (quoted or
      not, with its text), the arrays and 2-D arrays built from sequences, a
      parameter list, and a (name, entry) pair built for a map item. */
  datatype Value =
    | Scalar(quoted: bool, text: string)
    | IntArray(ia: seq<Int32>)
    | DoubleArray(da: seq<Double>)
    | StringArray(sa: seq<string>)
    | IntArray2(ia2: seq<seq<Int32>>)
    | DoubleArray2(da2: seq<seq<Double>>)
    | StringArray2(sa2: seq<seq<string>>)
    | IntGrid(ig: TwoD<Int32>)
    | DoubleGrid(dg: TwoD<Double>)
    | StringGrid(sg: TwoD<string>)
    | List(list: ParameterList)
    | Pair(name: string, entry: Entry)

  /** What the actions throw: Teuchos::ParserFail with its message, or the
      bad_any_cast that any_ref_cast / any_cast raise on a type mismatch. */
  datatype Error = ParserFail(msg: string) | BadAnyCast
}
