/** The semantic actions of the Teuchos YAML reader: how reductions of the
    grammar turn scalar tokens, sequences and maps into typed arrays, 2-D
    arrays and parameter lists. The grammar and its tables are not modelled;
    each action is a function from the values of a production's right-hand
    side to the new value or the exception it throws. */
module YamlReader {
  import opened Wrappers
  import opened YamlValues
  import opened YamlNumbers

  const EmptySequenceMessage: string :=
    "Empty arrays (sequences) not allowed!\n(need to be able to deduce the member type)\n"
  const MapValueMessage: string := "unexpected YAML map value type"
  const RaggedMessage: string := "2D array: sub-arrays are different sizes"
  const SequenceItemMessage: string := "unexpected sequence item type"
  const StringInNumberArrayMessage: string := "string in integer array"
  const SequenceTypeMessage: string := "bug in YAMLParameterList::Reader: unexpected sequence (array) type"

  // ---------------------------------------------------------------------------
  // scalars

  /** The typing of a scalar as written: an unquoted scalar whose text starts
      with an int numeral is an int, else one that starts with a double numeral
      is a double, else the scalar is a string. */
  function ScalarEntryAsWritten(quoted: bool, text: string): (r: Entry)
    ensures r.IntE? <==> !quoted && IsParseableAsInt(text)
    ensures r.DoubleE? <==> !quoted && !IsParseableAsInt(text) && IsParseableAsDouble(text)
    ensures r.StringE? <==> quoted || (!IsParseableAsInt(text) && !IsParseableAsDouble(text))
    ensures r.IntE? ==> r.i == ParseAsInt(text)
    ensures r.DoubleE? ==> r.d == ParseAsDouble(text)
    ensures r.StringE? ==> r.s == text
  {
    if !quoted && IsParseableAsInt(text) then IntE(ParseAsInt(text))
    else if !quoted && IsParseableAsDouble(text) then DoubleE(ParseAsDouble(text))
    else StringE(text)
  }

  /** The typing the writer's quoting rule presumes: an unquoted scalar is an
      int or a double only when its whole text is one, and then it carries
      exactly the value of that text. */
  function ScalarEntry(quoted: bool, text: string): (r: Entry)
    ensures r.IntE? <==> !quoted && CanBeParsedAsInt(text)
    ensures r.DoubleE? <==> !quoted && !CanBeParsedAsInt(text) && CanBeParsedAsDouble(text)
    ensures r.StringE? <==> quoted || !CanBeParsedAsDouble(text)
    ensures r.IntE? ==> r.i as int == ScanInt(text).value
    ensures r.DoubleE? ==> r.d == Double(text)
    ensures r.StringE? ==> r.s == text
  {
    if quoted then StringE(text)
    else if CanBeParsedAsInt(text) then
      WholeIntIsParseable(text);
      IntNumeralIsDoubleNumeral(text);
      IntE(ParseAsInt(text))
    else if CanBeParsedAsDouble(text) then
      WholeDoubleIsParseable(text);
      DoubleE(ParseAsDouble(text))
    else StringE(text)
  }

  /** Where the text is a whole numeral or no numeral prefix at all, the two
      typings agree. */
  lemma {:induction false} ScalarTypingsAgree(quoted: bool, text: string)
    requires quoted || CanBeParsedAsInt(text) || (!IsParseableAsInt(text) && !IsParseableAsDouble(text))
      || (CanBeParsedAsDouble(text) && !IsParseableAsInt(text))
    ensures ScalarEntryAsWritten(quoted, text) == ScalarEntry(quoted, text)
  {
    if !quoted && CanBeParsedAsInt(text) {
      WholeIntIsParseable(text);
    } else if !quoted && CanBeParsedAsDouble(text) {
      WholeDoubleIsParseable(text);
    }
  }

  // ---------------------------------------------------------------------------
  // map items

  /** The map value kinds map_item turns into a parameter entry as written. */
  predicate MapValueAcceptedAsWritten(v: Value) {
    v.Scalar? || v.IntArray? || v.DoubleArray? || v.StringArray? || v.List?
  }

  /** map_item as written: the key must be a scalar (its text is the name);
      a scalar value is typed by ScalarEntryAsWritten, 1-D arrays and lists are
      taken over, and anything else, a 2-D array included, is rejected. */
  function MapItemAsWritten(key: Value, value: Value): (r: Result<Value, Error>)
    ensures !key.Scalar? ==> r == Fail(BadAnyCast)
    ensures key.Scalar? && !MapValueAcceptedAsWritten(value) ==> r == Fail(ParserFail(MapValueMessage))
    ensures r.Ok? <==> key.Scalar? && MapValueAcceptedAsWritten(value)
    ensures r.Ok? ==> r.value.Pair? && r.value.name == key.text
  {
    if !key.Scalar? then Fail(BadAnyCast)
    else
      match value
      case Scalar(q, t) => Ok(Pair(key.text, ScalarEntryAsWritten(q, t)))
      case IntArray(a) => Ok(Pair(key.text, IntArrayE(a)))
      case DoubleArray(a) => Ok(Pair(key.text, DoubleArrayE(a)))
      case StringArray(a) => Ok(Pair(key.text, StringArrayE(a)))
      case List(pl) => Ok(Pair(key.text, ListE(pl)))
      case _ => Fail(ParserFail(MapValueMessage))
  }

  /** The map value kinds the corrected map_item accepts: also the 2-D arrays
      that the sequence reductions produce. */
  predicate MapValueAccepted(v: Value) {
    MapValueAcceptedAsWritten(v) || v.IntGrid? || v.DoubleGrid? || v.StringGrid?
  }

  /** map_item corrected: scalars are typed by ScalarEntry, and 2-D arrays are
      taken over like 1-D ones. */
  function MapItem(key: Value, value: Value): (r: Result<Value, Error>)
    ensures !key.Scalar? ==> r == Fail(BadAnyCast)
    ensures key.Scalar? && !MapValueAccepted(value) ==> r == Fail(ParserFail(MapValueMessage))
    ensures r.Ok? <==> key.Scalar? && MapValueAccepted(value)
    ensures r.Ok? ==> r.value.Pair? && r.value.name == key.text
    ensures key.Scalar? && MapValueAcceptedAsWritten(value) && !value.Scalar? ==> r == MapItemAsWritten(key, value)
  {
    if !key.Scalar? then Fail(BadAnyCast)
    else
      match value
      case Scalar(q, t) => Ok(Pair(key.text, ScalarEntry(q, t)))
      case IntArray(a) => Ok(Pair(key.text, IntArrayE(a)))
      case DoubleArray(a) => Ok(Pair(key.text, DoubleArrayE(a)))
      case StringArray(a) => Ok(Pair(key.text, StringArrayE(a)))
      case IntGrid(g) => Ok(Pair(key.text, IntGridE(g)))
      case DoubleGrid(g) => Ok(Pair(key.text, DoubleGridE(g)))
      case StringGrid(g) => Ok(Pair(key.text, StringGridE(g)))
      case List(pl) => Ok(Pair(key.text, ListE(pl)))
      case _ => Fail(ParserFail(MapValueMessage))
  }

  /** map_first_item: a new list holding the item's pair. */
  function MapFirstItem(item: Value): (r: Result<Value, Error>)
    ensures r.Ok? <==> item.Pair?
    ensures r.Ok? ==> r.value == List(ParameterList([Param(item.name, item.entry)]))
    ensures r.Fail? ==> r.error == BadAnyCast
  {
    if item.Pair? then
      assert Names(ParameterList([])) == [];
      assert [] + [Param(item.name, item.entry)] == [Param(item.name, item.entry)];
      Ok(List(Set(ParameterList([]), item.name, item.entry)))
    else Fail(BadAnyCast)
  }

  /** map_next_item: the pair is set on the list built so far. */
  function MapNextItem(acc: Value, item: Value): (r: Result<Value, Error>)
    ensures r.Ok? <==> acc.List? && item.Pair?
    ensures r.Ok? ==> r.value == List(Set(acc.list, item.name, item.entry))
    ensures r.Fail? ==> r.error == BadAnyCast
  {
    if acc.List? && item.Pair? then Ok(List(Set(acc.list, item.name, item.entry)))
    else Fail(BadAnyCast)
  }

  /** The items of a block or flow map reduced in order: the first by
      map_first_item, the rest by map_next_item; `{ }` gives an empty list. */
  function MapItems(items: seq<Value>): (r: Result<Value, Error>)
    ensures r.Ok? <==> forall k :: 0 <= k < |items| ==> items[k].Pair?
    ensures r.Ok? ==> r.value.List?
  {
    if |items| == 0 then Ok(List(ParameterList([])))
    else if |items| == 1 then MapFirstItem(items[0])
    else
      var prefix := MapItems(items[..|items| - 1]);
      assert forall k :: 0 <= k < |items| - 1 ==> items[..|items| - 1][k] == items[k];
      if prefix.Fail? then prefix else MapNextItem(prefix.value, items[|items| - 1])
  }

  /** The parameters a run of map items stands for. */
  function ItemParams(items: seq<Value>): (r: seq<Param>)
    requires forall k :: 0 <= k < |items| ==> items[k].Pair?
    ensures |r| == |items| && forall k :: 0 <= k < |items| ==> r[k] == Param(items[k].name, items[k].entry)
  {
    seq(|items|, k requires 0 <= k < |items| => Param(items[k].name, items[k].entry))
  }

  /** A map with distinct keys becomes the list of exactly its items, in
      order. */
  lemma {:induction false} MapItemsDistinct(items: seq<Value>)
    requires forall k :: 0 <= k < |items| ==> items[k].Pair?
    requires forall i, j :: 0 <= i < j < |items| ==> items[i].name != items[j].name
    ensures MapItems(items) == Ok(List(ParameterList(ItemParams(items))))
  {
    if |items| == 1 {
      assert ItemParams(items) == [Param(items[0].name, items[0].entry)];
    } else if |items| > 1 {
      var n := |items| - 1;
      var init := items[..n];
      assert forall k :: 0 <= k < n ==> init[k] == items[k];
      MapItemsDistinct(init);
      var pl := ParameterList(ItemParams(init));
      var last := items[n];
      assert last.name !in Names(pl) by {
        forall k | 0 <= k < n
          ensures Names(pl)[k] != last.name
        {
          assert Names(pl)[k] == items[k].name;
        }
      }
      assert Set(pl, last.name, last.entry).params == ItemParams(init) + [Param(last.name, last.entry)];
      assert ItemParams(init) + [Param(last.name, last.entry)] == ItemParams(items);
    }
  }

  /** Keys that repeat: the later value replaces the earlier one in place. */
  lemma {:induction false} DuplicateKeyKeepsLast(name: string, a: Entry, b: Entry)
    ensures MapItems([Pair(name, a), Pair(name, b)]) == Ok(List(ParameterList([Param(name, b)])))
  {
    var items := [Pair(name, a), Pair(name, b)];
    assert items[..1] == [Pair(name, a)];
    var empty := ParameterList([]);
    assert Names(empty) == [];
    var pl := ParameterList([Param(name, a)]);
    assert Set(empty, name, a) == pl;
    assert MapItems(items[..1]) == Ok(List(pl));
    assert Names(pl) == [name];
    assert IndexOf(Names(pl), name) == 0;
    assert Set(pl, name, b) == ParameterList([Param(name, b)]);
  }

  // ---------------------------------------------------------------------------
  // 2-D arrays

  /** The rows laid end to end. */
  function Flatten<T>(rows: seq<seq<T>>): (r: seq<T>)
  {
    if |rows| == 0 then [] else Flatten(rows[..|rows| - 1]) + rows[|rows| - 1]
  }

  predicate Rectangular<T>(rows: seq<seq<T>>)
    requires |rows| >= 1
  {
    forall i :: 0 <= i < |rows| ==> |rows[i]| == |rows[0]|
  }

  /** Rows of one length laid end to end give rows * cols cells. */
  lemma {:induction false} FlattenLength<T>(rows: seq<seq<T>>, cols: nat)
    requires forall i :: 0 <= i < |rows| ==> |rows[i]| == cols
    ensures |Flatten(rows)| == |rows| * cols
  {
    if |rows| > 0 {
      FlattenLength(rows[..|rows| - 1], cols);
    }
  }

  /** Cell (i, j) of flattened rows of one length is row i's element j. */
  lemma {:induction false} FlattenCell<T>(rows: seq<seq<T>>, cols: nat, i: nat, j: nat)
    requires forall r :: 0 <= r < |rows| ==> |rows[r]| == cols
    requires i < |rows| && j < cols
    ensures i * cols + j < |Flatten(rows)|
    ensures Flatten(rows)[i * cols + j] == rows[i][j]
  {
    var n := |rows| - 1;
    var init := rows[..n];
    FlattenLength(init, cols);
    FlattenLength(rows, cols);
    CellIndexBound(i, j, |rows|, cols);
    if i < n {
      FlattenCell(init, cols, i, j);
      assert init[i] == rows[i];
      CellIndexBound(i, j, n, cols);
    } else {
      assert i * cols == n * cols;
    }
  }

  /** nested_array_to_2d_array_tmpl: rows of one length become a TwoDArray of
      |rows| rows and |rows[0]| columns; rows of different lengths are refused.
      (The source reads rows[0], so an empty array is outside its domain; the
      reductions never build one.) */
  function NestedToTwoD<T>(rows: seq<seq<T>>): (r: Result<TwoD<T>, Error>)
    requires |rows| >= 1
    ensures r.Ok? <==> Rectangular(rows)
    ensures r.Fail? ==> r.error == ParserFail(RaggedMessage)
    ensures r.Ok? ==> r.value.rows == |rows| && r.value.cols == |rows[0]| && r.value.Valid()
  {
    if Rectangular(rows) then
      FlattenLength(rows, |rows[0]|);
      Ok(TwoD(|rows|, |rows[0]|, Flatten(rows)))
    else Fail(ParserFail(RaggedMessage))
  }

  /** Every cell of the built 2-D array is the element of the nested array at
      the same row and column. */
  lemma {:induction false} NestedToTwoDCells<T>(rows: seq<seq<T>>, i: nat, j: nat)
    requires |rows| >= 1 && Rectangular(rows)
    requires i < |rows| && j < |rows[0]|
    ensures NestedToTwoD(rows).value.Cell(i, j) == rows[i][j]
  {
    FlattenCell(rows, |rows[0]|, i, j);
  }

  /** nested_array_to_2d_array_tmpl as the loops of the source run it: check
      every row length against row 0, then fill the cells row by row. */
  method NestedArrayToTwoDArrayTmpl<T>(inval: seq<seq<T>>) returns (r: Result<TwoD<T>, Error>)
    requires |inval| >= 1
    ensures r == NestedToTwoD(inval)
  {
    var i := 0;
    while i < |inval|
      invariant 0 <= i <= |inval|
      invariant forall k :: 0 <= k < i ==> |inval[k]| == |inval[0]|
    {
      if |inval[i]| != |inval[0]| {
        return Fail(ParserFail(RaggedMessage));
      }
      i := i + 1;
    }
    var rows, cols := |inval|, |inval[0]|;
    var data: seq<T> := [];
    i := 0;
    while i < rows
      invariant 0 <= i <= rows
      invariant data == Flatten(inval[..i])
    {
      var j := 0;
      while j < cols
        invariant 0 <= j <= cols
        invariant data == Flatten(inval[..i]) + inval[i][..j]
      {
        data := data + [inval[i][j]];
        j := j + 1;
      }
      assert inval[i][..j] == inval[i];
      assert inval[..i + 1][..i] == inval[..i];
      i := i + 1;
    }
    assert inval[..rows] == inval;
    FlattenLength(inval, cols);
    r := Ok(TwoD(rows, cols, data));
  }

  /** The number of elements of an array value (0 for non-arrays). */
  function ArrayLength(v: Value): nat {
    match v
    case IntArray(a) => |a|
    case DoubleArray(a) => |a|
    case StringArray(a) => |a|
    case IntArray2(a) => |a|
    case DoubleArray2(a) => |a|
    case StringArray2(a) => |a|
    case _ => 0
  }

  predicate IsNested(v: Value) {
    v.IntArray2? || v.DoubleArray2? || v.StringArray2?
  }

  /** nested_array_to_2d_array: a nested array becomes a 2-D array of the same
      element type; any other value passes through unchanged. */
  function NestedArrayToTwoDArray(v: Value): (r: Result<Value, Error>)
    requires IsNested(v) ==> ArrayLength(v) >= 1
    ensures !IsNested(v) ==> r == Ok(v)
    ensures v.IntArray2? ==> r == (var g := NestedToTwoD(v.ia2); if g.Ok? then Ok(IntGrid(g.value)) else Fail(g.error))
    ensures v.DoubleArray2? ==> r == (var g := NestedToTwoD(v.da2); if g.Ok? then Ok(DoubleGrid(g.value)) else Fail(g.error))
    ensures v.StringArray2? ==> r == (var g := NestedToTwoD(v.sa2); if g.Ok? then Ok(StringGrid(g.value)) else Fail(g.error))
  {
    match v
    case IntArray2(a) =>
      var g := NestedToTwoD(a);
      if g.Ok? then Ok(IntGrid(g.value)) else Fail(g.error)
    case DoubleArray2(a) =>
      var g := NestedToTwoD(a);
      if g.Ok? then Ok(DoubleGrid(g.value)) else Fail(g.error)
    case StringArray2(a) =>
      var g := NestedToTwoD(a);
      if g.Ok? then Ok(StringGrid(g.value)) else Fail(g.error)
    case _ => Ok(v)
  }

  // ---------------------------------------------------------------------------
  // sequences

  /** seq_first_item as written: a scalar item is cast to int, double or
      string although it holds a Scalar, so every scalar item throws; a 1-D
      array item starts a nested array; anything else is rejected. */
  function SeqFirstItemAsWritten(item: Value): (r: Result<Value, Error>)
    ensures item.Scalar? ==> r == Fail(BadAnyCast)
    ensures item.IntArray? ==> r == Ok(IntArray2([item.ia]))
    ensures item.DoubleArray? ==> r == Ok(DoubleArray2([item.da]))
    ensures item.StringArray? ==> r == Ok(StringArray2([item.sa]))
    ensures r.Ok? ==> ArrayLength(r.value) == 1 && IsNested(r.value)
  {
    match item
    case Scalar(_, _) => Fail(BadAnyCast)
    case IntArray(a) => Ok(IntArray2([a]))
    case DoubleArray(a) => Ok(DoubleArray2([a]))
    case StringArray(a) => Ok(StringArray2([a]))
    case _ => Fail(ParserFail(SequenceItemMessage))
  }

  /** seq_first_item corrected: a scalar item starts an int, double or string
      array holding the value the scalar denotes. */
  function SeqFirstItem(item: Value): (r: Result<Value, Error>)
    ensures item.Scalar? ==> r.Ok?
    ensures item.Scalar? ==> var e := ScalarEntry(item.quoted, item.text);
      && (e.IntE? ==> r == Ok(IntArray([e.i])))
      && (e.DoubleE? ==> r == Ok(DoubleArray([e.d])))
      && (e.StringE? ==> r == Ok(StringArray([item.text])))
    ensures !item.Scalar? ==> r == SeqFirstItemAsWritten(item)
    ensures r.Ok? ==> ArrayLength(r.value) == 1
  {
    match item
    case Scalar(q, t) =>
      var e := ScalarEntry(q, t);
      if e.IntE? then Ok(IntArray([e.i]))
      else if e.DoubleE? then Ok(DoubleArray([e.d]))
      else Ok(StringArray([t]))
    case _ => SeqFirstItemAsWritten(item)
  }

  /** Whether two values are arrays of the same kind. */
  predicate SameKind(a: Value, b: Value) {
    (a.IntArray? && b.IntArray?) || (a.DoubleArray? && b.DoubleArray?) || (a.StringArray? && b.StringArray?)
    || (a.IntArray2? && b.IntArray2?) || (a.DoubleArray2? && b.DoubleArray2?) || (a.StringArray2? && b.StringArray2?)
  }

  /** seq_next_item: the array built so far fixes the element type. An int or
      double array takes an unquoted scalar read with parse_as (no check that
      the text is a numeral) and refuses a quoted one; a string array takes any
      scalar's text; a nested array takes a 1-D array of its element type. */
  function SeqNextItem(acc: Value, item: Value): (r: Result<Value, Error>)
    ensures r.Ok? ==> SameKind(r.value, acc) && ArrayLength(r.value) == ArrayLength(acc) + 1
    ensures (acc.IntArray? || acc.DoubleArray?) && item.Scalar? && item.quoted ==>
      r == Fail(ParserFail(StringInNumberArrayMessage))
    ensures acc.IntArray? && item.Scalar? && !item.quoted ==> r == Ok(IntArray(acc.ia + [ParseAsInt(item.text)]))
    ensures acc.DoubleArray? && item.Scalar? && !item.quoted ==> r == Ok(DoubleArray(acc.da + [ParseAsDouble(item.text)]))
    ensures acc.StringArray? && item.Scalar? ==> r == Ok(StringArray(acc.sa + [item.text]))
    ensures acc.IntArray2? && item.IntArray? ==> r == Ok(IntArray2(acc.ia2 + [item.ia]))
    ensures acc.DoubleArray2? && item.DoubleArray? ==> r == Ok(DoubleArray2(acc.da2 + [item.da]))
    ensures acc.StringArray2? && item.StringArray? ==> r == Ok(StringArray2(acc.sa2 + [item.sa]))
    ensures !SameKind(acc, acc) ==> r == Fail(ParserFail(SequenceTypeMessage))
  {
    match acc
    case IntArray(a) =>
      if !item.Scalar? then Fail(BadAnyCast)
      else if item.quoted then Fail(ParserFail(StringInNumberArrayMessage))
      else Ok(IntArray(a + [ParseAsInt(item.text)]))
    case DoubleArray(a) =>
      if !item.Scalar? then Fail(BadAnyCast)
      else if item.quoted then Fail(ParserFail(StringInNumberArrayMessage))
      else Ok(DoubleArray(a + [ParseAsDouble(item.text)]))
    case StringArray(a) =>
      if !item.Scalar? then Fail(BadAnyCast) else Ok(StringArray(a + [item.text]))
    case IntArray2(a) =>
      if !item.IntArray? then Fail(BadAnyCast) else Ok(IntArray2(a + [item.ia]))
    case DoubleArray2(a) =>
      if !item.DoubleArray? then Fail(BadAnyCast) else Ok(DoubleArray2(a + [item.da]))
    case StringArray2(a) =>
      if !item.StringArray? then Fail(BadAnyCast) else Ok(StringArray2(a + [item.sa]))
    case _ => Fail(ParserFail(SequenceTypeMessage))
  }

  /** The items of a non-empty sequence reduced in order: the first by the
      given first-item action, the rest by seq_next_item. */
  function SeqItemsWith(items: seq<Value>, asWritten: bool): (r: Result<Value, Error>)
    requires |items| >= 1
    ensures r.Ok? ==> ArrayLength(r.value) == |items|
  {
    if |items| == 1 then
      if asWritten then SeqFirstItemAsWritten(items[0]) else SeqFirstItem(items[0])
    else
      var prefix := SeqItemsWith(items[..|items| - 1], asWritten);
      if prefix.Fail? then prefix else SeqNextItem(prefix.value, items[|items| - 1])
  }

  /** One more item is reduced by seq_next_item onto what the others gave. */
  lemma {:induction false} SeqItemsSnoc(init: seq<Value>, last: Value, asWritten: bool)
    requires |init| >= 1
    ensures var prefix := SeqItemsWith(init, asWritten);
      SeqItemsWith(init + [last], asWritten) == if prefix.Fail? then prefix else SeqNextItem(prefix.value, last)
  {
    assert (init + [last])[..|init|] == init;
  }

  /** The first item fixes the kind of array: however many items follow, a
      successful reduction has the kind the first item gave it. */
  lemma {:induction false} SeqItemsKind(items: seq<Value>, asWritten: bool)
    requires |items| >= 1
    requires SeqItemsWith(items, asWritten).Ok?
    ensures var first := if asWritten then SeqFirstItemAsWritten(items[0]) else SeqFirstItem(items[0]);
      first.Ok? && SameKind(SeqItemsWith(items, asWritten).value, first.value)
  {
    if |items| > 1 {
      var init := items[..|items| - 1];
      assert init[0] == items[0];
      SeqItemsKind(init, asWritten);
    }
  }

  /** A flow or block sequence: an empty one is refused, otherwise its items
      are reduced and a nested result becomes a 2-D array. */
  function SequenceWith(items: seq<Value>, asWritten: bool): (r: Result<Value, Error>)
  {
    if |items| == 0 then Fail(ParserFail(EmptySequenceMessage))
    else
      var built := SeqItemsWith(items, asWritten);
      if built.Fail? then built else NestedArrayToTwoDArray(built.value)
  }

  /** The sequence reduction with the corrected seq_first_item. */
  function Sequence(items: seq<Value>): (r: Result<Value, Error>)
    ensures |items| == 0 ==> r == Fail(ParserFail(EmptySequenceMessage))
  {
    SequenceWith(items, false)
  }

  /** The sequence reduction as written. */
  function SequenceAsWritten(items: seq<Value>): (r: Result<Value, Error>)
    ensures |items| == 0 ==> r == Fail(ParserFail(EmptySequenceMessage))
  {
    SequenceWith(items, true)
  }

  /** Once a prefix of the items fails, the whole sequence fails the same way. */
  lemma {:induction false} SeqItemsFailurePropagates(items: seq<Value>, n: nat, asWritten: bool)
    requires 1 <= n <= |items|
    requires SeqItemsWith(items[..n], asWritten).Fail?
    ensures SeqItemsWith(items, asWritten) == SeqItemsWith(items[..n], asWritten)
  {
    if n < |items| {
      var init := items[..|items| - 1];
      assert init[..n] == items[..n];
      SeqItemsFailurePropagates(init, n, asWritten);
    } else {
      assert items[..n] == items;
    }
  }

  /** As written, no sequence whose first item is a scalar can be read: the
      cast in seq_first_item throws before any element is stored. */
  lemma {:induction false} ScalarSequencesFailAsWritten(items: seq<Value>)
    requires |items| >= 1 && items[0].Scalar?
    ensures SequenceAsWritten(items) == Fail(BadAnyCast)
  {
    assert items[..1] == [items[0]];
    SeqItemsFailurePropagates(items, 1, true);
  }

  /** A quoted scalar after an int array's first element makes the whole
      sequence fail, however it continues. */
  lemma {:induction false} QuotedItemInIntArrayFails(items: seq<Value>, n: nat)
    requires 1 <= n < |items|
    requires var p := SeqItemsWith(items[..n], false); p.Ok? && (p.value.IntArray? || p.value.DoubleArray?)
    requires items[n].Scalar? && items[n].quoted
    ensures Sequence(items) == Fail(ParserFail(StringInNumberArrayMessage))
  {
    var m := n + 1;
    assert items[..m] == items[..n] + [items[n]];
    SeqItemsSnoc(items[..n], items[n], false);
    SeqItemsFailurePropagates(items, m, false);
  }

  /** An unquoted whole int numeral starts an int array of its value. */
  lemma {:induction false} IntItemStartsIntArray(text: string)
    requires CanBeParsedAsInt(text)
    ensures SeqItemsWith([Scalar(false, text)], false) == Ok(IntArray([ParseAsInt(text)]))
  {
    WholeIntIsParseable(text);
    assert ScalarEntry(false, text) == IntE(ParseAsInt(text));
  }

  /** seq_next_item does not check that a later item is a numeral: an int
      array read so far, followed by an unquoted item without digits (the
      `abc` of [1, abc]), stores 0 for it. */
  lemma {:induction false} NonNumeralStoredAsZero(init: seq<Value>, a: seq<Int32>, other: string)
    requires |init| >= 1 && SeqItemsWith(init, false) == Ok(IntArray(a))
    requires !ScanInt(SkipWs(other)).hasDigits
    ensures Sequence(init + [Scalar(false, other)]) == Ok(IntArray(a + [0]))
  {
    SeqItemsSnoc(init, Scalar(false, other), false);
  }

  /** The texts of a run of scalar items. */
  function Texts(items: seq<Value>): (r: seq<string>)
    requires forall k :: 0 <= k < |items| ==> items[k].Scalar?
    ensures |r| == |items| && forall k :: 0 <= k < |items| ==> r[k] == items[k].text
  {
    seq(|items|, k requires 0 <= k < |items| => items[k].text)
  }

  /** A sequence of scalars whose first item is typed as a string reads as the
      string array of all the items' texts, quoted or not. */
  lemma {:induction false} StringSequenceReads(items: seq<Value>)
    requires |items| >= 1 && forall k :: 0 <= k < |items| ==> items[k].Scalar?
    requires ScalarEntry(items[0].quoted, items[0].text).StringE?
    ensures SeqItemsWith(items, false) == Ok(StringArray(Texts(items)))
  {
    if |items| == 1 {
      assert Texts(items) == [items[0].text];
    } else {
      var init := items[..|items| - 1];
      assert init[0] == items[0];
      assert forall k :: 0 <= k < |init| ==> init[k] == items[k];
      StringSequenceReads(init);
      assert Texts(init) + [items[|items| - 1].text] == Texts(items);
    }
  }
}
