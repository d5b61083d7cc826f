/** What the reader's actions make of the tokens the writer produces. The
    scanner is not part of the model: a value written by generalWriteString is
    taken to reach the reader as the string itself, marked quoted exactly when
    the writer put it in quotes; an int, double or bool is written unquoted. */
module YamlRoundTrip {
  import opened Wrappers
  import opened YamlValues
  import opened YamlNumbers
  import opened YamlReader
  import opened YamlWriter
  import opened YamlFlow

  /** The token for a string written by generalWriteString. The scanner is
      taken to hand back a bare string exactly, the empty one and one with
      blanks at either end included. */
  function WrittenToken(s: string): (r: Value)
    ensures r.Scalar? && r.text == s
  {
    Scalar(StringNeedsQuotes(s), s)
  }

  // ---------------------------------------------------------------------------
  // scalars

  /** A written string reads back as that string: it is quoted whenever its
      text would otherwise be typed as a number. */
  lemma {:induction false} StringReadsBack(s: string)
    ensures ScalarEntry(StringNeedsQuotes(s), s) == StringE(s)
  {
    if !StringNeedsQuotes(s) {
      assert !CanBeParsedAsInt(s) && !CanBeParsedAsDouble(s);
    }
  }

  /** A string parameter reads back under its name. */
  lemma {:induction false} StringParamReadsBack(name: string, s: string)
    ensures MapItem(WrittenToken(name), WrittenToken(s)) == Ok(Pair(name, StringE(s)))
  {
    StringReadsBack(s);
  }

  /** An int parameter reads back as the same int, also as written. */
  lemma {:induction false} IntParamReadsBack(name: string, n: Int32)
    ensures MapItem(WrittenToken(name), Scalar(false, IntText(n))) == Ok(Pair(name, IntE(n)))
    ensures MapItemAsWritten(WrittenToken(name), Scalar(false, IntText(n))) == Ok(Pair(name, IntE(n)))
  {
    var t := IntText(n);
    IntToStringRoundTrip(n);
    WholeIntIsParseable(t);
  }

  /** A double whose printed text is a whole double numeral and not an int
      numeral reads back as that double. */
  lemma {:induction false} DoubleParamReadsBack(name: string, d: Double)
    requires CanBeParsedAsDouble(DoubleText(d)) && !CanBeParsedAsInt(DoubleText(d))
    ensures MapItem(WrittenToken(name), Scalar(false, DoubleText(d))) == Ok(Pair(name, DoubleE(d)))
  {
  }

  /** As written, a double printed with a fractional part reads back as the
      int of its integral part: "3.14" becomes the int 3. */
  lemma {:induction false} WrittenDoubleReadsAsInt(name: string, num: string, frac: string)
    requires CanBeParsedAsInt(num)
    requires forall k :: 0 <= k < |frac| ==> IsDigit(frac[k])
    ensures var t := DoubleText(Double(num + "." + frac));
      && MapItemAsWritten(WrittenToken(name), Scalar(false, t)) == Ok(Pair(name, IntE(ParseAsInt(num))))
      && MapItem(WrittenToken(name), Scalar(false, t)) == Ok(Pair(name, DoubleE(Double(num + "." + frac))))
  {
    PrefixTruncatesFraction(num, frac);
  }

  /** As written, a string that starts with an int numeral, and has neither a
      special character nor a numeral's continuation after it, is written
      unquoted and reads back as that int; the whole-text typing reads it back
      as the string. */
  lemma {:induction false} TrailingTextReadsAsInt(name: string, num: string, rest: string)
    requires CanBeParsedAsInt(num)
    requires |rest| > 0 && !IsDigit(rest[0]) && rest[0] != '.' && rest[0] != 'e' && rest[0] != 'E'
    requires !ContainsSpecialCharacters(num + rest)
    ensures !StringNeedsQuotes(num + rest)
    ensures MapItemAsWritten(WrittenToken(name), WrittenToken(num + rest)) == Ok(Pair(name, IntE(ParseAsInt(num))))
    ensures MapItem(WrittenToken(name), WrittenToken(num + rest)) == Ok(Pair(name, StringE(num + rest)))
  {
    PrefixAcceptsTrailingText(num, rest);
    DoublePrefixStops(num, rest);
    StringReadsBack(num + rest);
  }

  /** A bool is written as true or false, which reads back as a string. */
  lemma {:induction false} BoolReadsAsString(name: string, b: bool)
    ensures var t := ValueText(BoolE(b), 0);
      MapItem(WrittenToken(name), Scalar(false, t)) == Ok(Pair(name, StringE(t)))
  {
    var t := ValueText(BoolE(b), 0);
    assert t[0] == 't' || t[0] == 'f';
    assert Step(Start, false, t[0]).None?;
    assert !CanBeParsedAsDouble(t);
    assert !CanBeParsedAsInt(t);
  }

  // ---------------------------------------------------------------------------
  // arrays

  /** The tokens of a written int array. */
  function IntTokens(a: seq<Int32>): (r: seq<Value>)
    ensures |r| == |a| && forall k {:trigger r[k]} :: 0 <= k < |a| ==> r[k] == Scalar(false, IntText(a[k]))
  {
    seq(|a|, k requires 0 <= k < |a| => Scalar(false, IntText(a[k])))
  }

  /** Unquoted scalar tokens of the given texts. */
  function UnquotedTokens(texts: seq<string>): (r: seq<Value>)
    ensures |r| == |texts| && forall k {:trigger r[k]} :: 0 <= k < |texts| ==> r[k] == Scalar(false, texts[k])
  {
    seq(|texts|, k requires 0 <= k < |texts| => Scalar(false, texts[k]))
  }

  /** An int prints as a sign and digits, never a comma. */
  lemma {:induction false} IntTextHasNoComma(n: Int32)
    ensures ',' !in IntText(n)
  {
    var m := n as int;
    var ds := if m < 0 then DigitsOf(-m) else DigitsOf(m);
    assert forall k :: 0 <= k < |ds| ==> ds[k] != ',';
  }

  /** A sequence is its front followed by its last element. */
  lemma {:induction false} SnocLast<T>(a: seq<T>)
    requires |a| >= 1
    ensures a[..|a| - 1] + [a[|a| - 1]] == a
  {
  }

  lemma {:induction false} IntTokensSnoc(init: seq<Int32>, x: Int32)
    ensures IntTokens(init + [x]) == IntTokens(init) + [Scalar(false, IntText(x))]
  {
  }

  /** One more written int extends the int array read so far by itself. */
  lemma {:induction false} IntItemsStep(init: seq<Int32>, x: Int32)
    requires |init| >= 1
    requires SeqItemsWith(IntTokens(init), false) == Ok(IntArray(init))
    ensures SeqItemsWith(IntTokens(init + [x]), false) == Ok(IntArray(init + [x]))
  {
    IntToStringRoundTrip(x);
    IntTokensSnoc(init, x);
    SeqItemsSnoc(IntTokens(init), Scalar(false, IntText(x)), false);
  }

  /** A single written int reads as an int array of itself. */
  lemma {:induction false} IntItemsOne(x: Int32)
    ensures SeqItemsWith(IntTokens([x]), false) == Ok(IntArray([x]))
  {
    var t := IntText(x);
    IntToStringRoundTrip(x);
    assert CanBeParsedAsInt(t) && ParseAsInt(t) == x;
    IntItemStartsIntArray(t);
    assert IntTokens([x]) == [Scalar(false, t)];
  }

  /** The reduction of a written int array's tokens is that array. */
  lemma {:induction false} IntItemsReadBack(a: seq<Int32>)
    requires |a| >= 1
    ensures SeqItemsWith(IntTokens(a), false) == Ok(IntArray(a))
  {
    var n := |a| - 1;
    if n == 0 {
      IntItemsOne(a[0]);
      assert [a[0]] == a;
    } else {
      IntItemsReadBack(a[..n]);
      IntItemsStep(a[..n], a[n]);
      SnocLast(a);
    }
  }

  /** A non-empty int array reads back as itself; as written the first
      element's cast already throws. */
  lemma {:induction false} IntArrayReadsBack(a: seq<Int32>)
    requires |a| >= 1
    ensures Sequence(IntTokens(a)) == Ok(IntArray(a))
    ensures SequenceAsWritten(IntTokens(a)) == Fail(BadAnyCast)
  {
    IntItemsReadBack(a);
    ScalarSequencesFailAsWritten(IntTokens(a));
  }

  /** The tokens of a written string array. */
  function StringTokens(a: seq<string>): (r: seq<Value>)
    ensures |r| == |a| && forall k {:trigger r[k]} :: 0 <= k < |a| ==> r[k] == WrittenToken(a[k])
  {
    seq(|a|, k requires 0 <= k < |a| => WrittenToken(a[k]))
  }

  /** A non-empty string array reads back as itself. */
  lemma {:induction false} StringArrayReadsBack(a: seq<string>)
    requires |a| >= 1
    ensures Sequence(StringTokens(a)) == Ok(StringArray(a))
  {
    var items := StringTokens(a);
    StringReadsBack(a[0]);
    StringSequenceReads(items);
    assert Texts(items) == a;
  }

  /** The tokens of a written double array. */
  function DoubleTokens(a: seq<Double>): (r: seq<Value>)
    ensures |r| == |a| && forall k {:trigger r[k]} :: 0 <= k < |a| ==> r[k] == Scalar(false, DoubleText(a[k]))
  {
    seq(|a|, k requires 0 <= k < |a| => Scalar(false, DoubleText(a[k])))
  }

  lemma {:induction false} DoubleTokensSnoc(init: seq<Double>, x: Double)
    ensures DoubleTokens(init + [x]) == DoubleTokens(init) + [Scalar(false, DoubleText(x))]
  {
  }

  /** A single written double that prints as a whole double numeral and not
      as an int numeral reads as a double array of itself. */
  lemma {:induction false} DoubleItemsOne(x: Double)
    requires CanBeParsedAsDouble(DoubleText(x)) && !CanBeParsedAsInt(DoubleText(x))
    ensures SeqItemsWith(DoubleTokens([x]), false) == Ok(DoubleArray([x]))
  {
    WholeDoubleIsParseable(DoubleText(x));
    assert DoubleTokens([x]) == [Scalar(false, DoubleText(x))];
  }

  /** One more written double that prints as a whole double numeral extends
      the double array read so far by itself. */
  lemma {:induction false} DoubleItemsStep(init: seq<Double>, x: Double)
    requires |init| >= 1 && CanBeParsedAsDouble(DoubleText(x))
    requires SeqItemsWith(DoubleTokens(init), false) == Ok(DoubleArray(init))
    ensures SeqItemsWith(DoubleTokens(init + [x]), false) == Ok(DoubleArray(init + [x]))
  {
    WholeDoubleIsParseable(DoubleText(x));
    DoubleTokensSnoc(init, x);
    SeqItemsSnoc(DoubleTokens(init), Scalar(false, DoubleText(x)), false);
  }

  /** The reduction of a written double array's tokens is that array, when
      every element prints as a whole double numeral and the first is no int
      numeral. */
  lemma {:induction false} DoubleItemsReadBack(a: seq<Double>)
    requires |a| >= 1 && !CanBeParsedAsInt(DoubleText(a[0]))
    requires forall k :: 0 <= k < |a| ==> CanBeParsedAsDouble(DoubleText(a[k]))
    ensures SeqItemsWith(DoubleTokens(a), false) == Ok(DoubleArray(a))
  {
    var n := |a| - 1;
    if n == 0 {
      DoubleItemsOne(a[0]);
      assert [a[0]] == a;
    } else {
      var init := a[..n];
      assert init[0] == a[0];
      DoubleItemsReadBack(init);
      DoubleItemsStep(init, a[n]);
      SnocLast(a);
    }
  }

  /** A non-empty double array reads back as itself when its elements print
      as whole double numerals and the first is no int numeral (later ones are
      read by parse_as and may be). */
  lemma {:induction false} DoubleArrayReadsBack(a: seq<Double>)
    requires |a| >= 1 && !CanBeParsedAsInt(DoubleText(a[0]))
    requires forall k :: 0 <= k < |a| ==> CanBeParsedAsDouble(DoubleText(a[k]))
    ensures Sequence(DoubleTokens(a)) == Ok(DoubleArray(a))
  {
    DoubleItemsReadBack(a);
  }

  // ---------------------------------------------------------------------------
  // flow sequences of items without commas

  /** A flow sequence's text is its items' joined text in brackets. */
  lemma {:induction false} FlowTextBrackets(items: seq<string>)
    ensures var t := FlowText(items);
      |t| >= 2 && t[0] == '[' && t[|t| - 1] == ']' && FlowBody(t) == Join(items)
  {
    var t := FlowText(items);
    assert t == "[" + Join(items) + "]";
  }

  /** What writeParameter writes for an int array is "[", its elements
      joined by ", ", and "]"; cut into items, it gives their tokens. */
  lemma {:induction false} IntArrayTextSplits(a: seq<Int32>)
    requires |a| >= 1
    ensures var t := FlowText(Items(a, IntText));
      |t| >= 2 && t[0] == '[' && t[|t| - 1] == ']'
      && UnquotedTokens(SplitItems(FlowBody(t))) == IntTokens(a)
  {
    var items := Items(a, IntText);
    forall k | 0 <= k < |items| ensures ',' !in items[k] {
      IntTextHasNoComma(a[k]);
    }
    SplitJoin(items);
    FlowTextBrackets(items);
    assert UnquotedTokens(items) == IntTokens(a);
  }

  /** A written int array is read back as itself. */
  lemma {:induction false} IntArrayTextReadsBack(a: seq<Int32>, indent: nat)
    requires |a| >= 1
    ensures var t := ValueText(IntArrayE(a), indent);
      |t| >= 2 && Sequence(UnquotedTokens(SplitItems(FlowBody(t)))) == Ok(IntArray(a))
  {
    assert ValueText(IntArrayE(a), indent) == FlowText(Items(a, IntText));
    IntArrayTextSplits(a);
    IntArrayReadsBack(a);
  }

  /** The same for a double array whose elements print as whole double
      numerals. */
  lemma {:induction false} DoubleArrayTextSplits(a: seq<Double>)
    requires |a| >= 1
    requires forall k :: 0 <= k < |a| ==> CanBeParsedAsDouble(DoubleText(a[k]))
    ensures var t := FlowText(Items(a, DoubleText));
      |t| >= 2 && t[0] == '[' && t[|t| - 1] == ']'
      && UnquotedTokens(SplitItems(FlowBody(t))) == DoubleTokens(a)
  {
    var items := Items(a, DoubleText);
    forall k | 0 <= k < |items| ensures ',' !in items[k] {
      DoubleNumeralHasNoComma(DoubleText(a[k]));
    }
    SplitJoin(items);
    FlowTextBrackets(items);
    assert UnquotedTokens(items) == DoubleTokens(a);
  }

  /** A written double array whose first element is not an int numeral is
      read back as itself. */
  lemma {:induction false} DoubleArrayTextReadsBack(a: seq<Double>, indent: nat)
    requires |a| >= 1 && !CanBeParsedAsInt(DoubleText(a[0]))
    requires forall k :: 0 <= k < |a| ==> CanBeParsedAsDouble(DoubleText(a[k]))
    ensures var t := ValueText(DoubleArrayE(a), indent);
      |t| >= 2 && Sequence(UnquotedTokens(SplitItems(FlowBody(t)))) == Ok(DoubleArray(a))
  {
    assert ValueText(DoubleArrayE(a), indent) == FlowText(Items(a, DoubleText));
    DoubleArrayTextSplits(a);
    DoubleArrayReadsBack(a);
  }

  // ---------------------------------------------------------------------------
  // 2-D arrays

  /** Row `i` of a 2-D array. */
  function Row<T>(g: TwoD<T>, i: nat): (r: seq<T>)
    requires g.Valid() && i < g.rows
    ensures |r| == g.cols && forall j {:trigger r[j]} :: 0 <= j < g.cols ==> r[j] == g.Cell(i, j)
  {
    seq(g.cols, j requires 0 <= j < g.cols => g.Cell(i, j))
  }

  function Rows<T>(g: TwoD<T>): (r: seq<seq<T>>)
    requires g.Valid()
    ensures |r| == g.rows && forall i {:trigger r[i]} :: 0 <= i < g.rows ==> r[i] == Row(g, i)
  {
    seq(g.rows, i requires 0 <= i < g.rows => Row(g, i))
  }

  /** A position below rows * cols falls in one of the rows. */
  lemma {:induction false} DivBound(p: nat, cols: nat, rows: nat)
    requires cols >= 1 && p < rows * cols
    ensures p / cols < rows && p == (p / cols) * cols + p % cols
  {
    var i := p / cols;
    assert i * cols <= p;
    assert (rows - i) * cols == rows * cols - i * cols;
  }

  /** The rows of a 2-D array laid end to end are its cells. */
  lemma {:induction false} FlattenRows<T>(g: TwoD<T>)
    requires g.Valid() && g.cols >= 1
    ensures Flatten(Rows(g)) == g.data
  {
    var rows := Rows(g);
    FlattenLength(rows, g.cols);
    forall p | 0 <= p < |g.data|
      ensures Flatten(rows)[p] == g.data[p]
    {
      var i := p / g.cols;
      var j := p % g.cols;
      DivBound(p, g.cols, g.rows);
      FlattenCell(rows, g.cols, i, j);
    }
  }

  /** The items of an outer sequence whose items are int arrays. */
  function IntRowItems(rows: seq<seq<Int32>>): (r: seq<Value>)
    ensures |r| == |rows| && forall i {:trigger r[i]} :: 0 <= i < |rows| ==> r[i] == IntArray(rows[i])
  {
    seq(|rows|, i requires 0 <= i < |rows| => IntArray(rows[i]))
  }

  lemma {:induction false} IntRowsRead(rows: seq<seq<Int32>>)
    requires |rows| >= 1
    ensures SeqItemsWith(IntRowItems(rows), false) == Ok(IntArray2(rows))
  {
    var items := IntRowItems(rows);
    var n := |rows| - 1;
    if n == 0 {
      assert items == [IntArray(rows[0])];
      assert [rows[0]] == rows;
    } else {
      assert items[..n] == IntRowItems(rows[..n]);
      IntRowsRead(rows[..n]);
      assert rows[..n] + [rows[n]] == rows;
    }
  }

  /** The rows of a 2-D array with at least one column form a rectangular
      nested array that converts back to the 2-D array. */
  lemma {:induction false} RowsToTwoD<T>(g: TwoD<T>)
    requires g.Valid() && g.rows >= 1 && g.cols >= 1
    ensures NestedToTwoD(Rows(g)) == Ok(g)
  {
    var rows := Rows(g);
    FlattenRows(g);
    assert Rectangular(rows);
  }

  /** Each row of an int 2-D array, written as a flow sequence, reads back as
      that row. */
  lemma {:induction false} IntGridRowsReadBack(g: TwoD<Int32>)
    requires g.Valid() && g.cols >= 1
    ensures forall i :: 0 <= i < g.rows ==> Sequence(IntTokens(Row(g, i))) == Ok(IntArray(Row(g, i)))
  {
    forall i | 0 <= i < g.rows
      ensures Sequence(IntTokens(Row(g, i))) == Ok(IntArray(Row(g, i)))
    {
      IntArrayReadsBack(Row(g, i));
    }
  }

  /** The outer sequence of row arrays reads back as the 2-D array. */
  lemma {:induction false} IntGridSequenceReadsBack(g: TwoD<Int32>)
    requires g.Valid() && g.rows >= 1 && g.cols >= 1
    ensures Sequence(IntRowItems(Rows(g))) == Ok(IntGrid(g))
  {
    IntRowsRead(Rows(g));
    RowsToTwoD(g);
  }

  /** The corrected map_item stores an int 2-D array under its name, while as
      written map_item rejects it. */
  lemma {:induction false} IntGridParamReadsBack(name: string, g: TwoD<Int32>)
    ensures MapItem(WrittenToken(name), IntGrid(g)) == Ok(Pair(name, IntGridE(g)))
    ensures MapItemAsWritten(WrittenToken(name), IntGrid(g)) == Fail(ParserFail(MapValueMessage))
  {
  }

  // ---------------------------------------------------------------------------
  // whole parameter lists

  /** The entries whose written tokens this model reads back: strings written
      on one line, ints, doubles printed as a whole double numeral and no int
      numeral, non-empty int and string arrays, double arrays as for
      DoubleArrayReadsBack, int 2-D arrays with at least one cell, and nested
      lists of such entries with distinct names. */
  predicate ReadableEntry(e: Entry)
    decreases e
  {
    match e
    case StringE(s) => '\n' !in s
    case IntE(_) => true
    case DoubleE(d) => CanBeParsedAsDouble(DoubleText(d)) && !CanBeParsedAsInt(DoubleText(d))
    case IntArrayE(a) => |a| >= 1
    case DoubleArrayE(a) =>
      && |a| >= 1 && !CanBeParsedAsInt(DoubleText(a[0]))
      && forall k :: 0 <= k < |a| ==> CanBeParsedAsDouble(DoubleText(a[k]))
    case StringArrayE(a) => |a| >= 1
    case IntGridE(g) => g.Valid() && g.rows >= 1 && g.cols >= 1
    case ListE(pl) => ReadableList(pl)
    case _ => false
  }

  predicate ReadableList(pl: ParameterList)
    decreases pl
  {
    DistinctNames(pl) && forall k :: 0 <= k < |pl.params| ==> ReadableEntry(pl.params[k].entry)
  }

  /** The items of the outer sequence of a written int 2-D array: the
      reductions of its rows' flow sequences. */
  function GridRowValues(g: TwoD<Int32>): (r: seq<Value>)
    requires g.Valid() && g.cols >= 1
    ensures |r| == g.rows
    ensures forall i {:trigger r[i]} :: 0 <= i < g.rows ==> Ok(r[i]) == Sequence(IntTokens(Row(g, i)))
  {
    IntGridRowsReadBack(g);
    seq(g.rows, i requires 0 <= i < g.rows => Sequence(IntTokens(Row(g, i))).value)
  }

  /** What the reader's actions hold for the value of a written entry: its
      scalar token, the reduction of its flow sequence's tokens (of the rows'
      reductions for a 2-D array), or a nested list read from its own map
      items. */
  function ReadEntry(e: Entry): (r: Result<Value, Error>)
    requires ReadableEntry(e)
    decreases e
  {
    match e
    case StringE(s) => Ok(WrittenToken(s))
    case IntE(n) => Ok(Scalar(false, IntText(n)))
    case DoubleE(d) => Ok(Scalar(false, DoubleText(d)))
    case IntArrayE(a) => Sequence(IntTokens(a))
    case DoubleArrayE(a) => Sequence(DoubleTokens(a))
    case StringArrayE(a) => Sequence(StringTokens(a))
    case IntGridE(g) => Sequence(GridRowValues(g))
    case ListE(pl) => ReadList(pl)
  }

  /** The map item of a written parameter: its value is reduced first, then
      map_item pairs it with the name's token. */
  function ReadParam(p: Param): (r: Result<Value, Error>)
    requires ReadableEntry(p.entry)
    decreases p
  {
    var v := ReadEntry(p.entry);
    if v.Fail? then v else MapItem(WrittenToken(p.name), v.value)
  }

  /** The map items of written parameters, in order; the first failure is
      the result. */
  function ReadParams(ps: seq<Param>): (r: Result<seq<Value>, Error>)
    requires forall k :: 0 <= k < |ps| ==> ReadableEntry(ps[k].entry)
    decreases ps
  {
    if |ps| == 0 then Ok([])
    else
      var n := |ps| - 1;
      assert forall k :: 0 <= k < n ==> ps[..n][k] == ps[k];
      var init := ReadParams(ps[..n]);
      var item := ReadParam(ps[n]);
      if init.Fail? then init
      else if item.Fail? then Fail(item.error)
      else Ok(init.value + [item.value])
  }

  /** A written list read back: its map items reduced by map_first_item and
      map_next_item. */
  function ReadList(pl: ParameterList): (r: Result<Value, Error>)
    requires ReadableList(pl)
    decreases pl
  {
    var items := ReadParams(pl.params);
    if items.Fail? then Fail(items.error) else MapItems(items.value)
  }

  /** The pairs map_item builds for the parameters. */
  function Pairs(ps: seq<Param>): (r: seq<Value>)
    ensures |r| == |ps| && forall k {:trigger r[k]} :: 0 <= k < |ps| ==> r[k] == Pair(ps[k].name, ps[k].entry)
  {
    seq(|ps|, k requires 0 <= k < |ps| => Pair(ps[k].name, ps[k].entry))
  }

  /** A written int 2-D array with a cell reads back as itself through its
      rows. */
  lemma {:induction false} GridReadsBack(g: TwoD<Int32>)
    requires g.Valid() && g.rows >= 1 && g.cols >= 1
    ensures Sequence(GridRowValues(g)) == Ok(IntGrid(g))
  {
    IntGridRowsReadBack(g);
    var rows := GridRowValues(g);
    assert rows == IntRowItems(Rows(g)) by {
      forall i | 0 <= i < g.rows
        ensures rows[i] == IntRowItems(Rows(g))[i]
      {
        assert Sequence(IntTokens(Row(g, i))) == Ok(IntArray(Row(g, i)));
      }
    }
    IntGridSequenceReadsBack(g);
  }

  /** A written parameter with a readable entry is read back by map_item as
      its name and its entry. */
  lemma {:induction false} ParamReadsBack(p: Param)
    requires ReadableEntry(p.entry)
    decreases p
    ensures ReadParam(p) == Ok(Pair(p.name, p.entry))
  {
    var name := p.name;
    match p.entry
    case StringE(s) => StringParamReadsBack(name, s);
    case IntE(n) => IntParamReadsBack(name, n);
    case DoubleE(d) => DoubleParamReadsBack(name, d);
    case IntArrayE(a) => IntArrayReadsBack(a);
    case DoubleArrayE(a) => DoubleArrayReadsBack(a);
    case StringArrayE(a) => StringArrayReadsBack(a);
    case IntGridE(g) => GridReadsBack(g);
    case ListE(pl) => ListReadsBack(pl);
  }

  /** Written parameters of readable entries give the pairs of those
      parameters, in order. */
  lemma {:induction false} ParamsReadBack(ps: seq<Param>)
    requires forall k :: 0 <= k < |ps| ==> ReadableEntry(ps[k].entry)
    decreases ps
    ensures ReadParams(ps) == Ok(Pairs(ps))
  {
    if |ps| == 0 {
      assert Pairs(ps) == [];
    } else {
      var n := |ps| - 1;
      assert forall k :: 0 <= k < n ==> ps[..n][k] == ps[k];
      ParamsReadBack(ps[..n]);
      ParamReadsBack(ps[n]);
      assert Pairs(ps[..n]) + [Pair(ps[n].name, ps[n].entry)] == Pairs(ps);
    }
  }

  /** A parameter list of readable entries with distinct names, written and
      read back, is the same list: the same names in the same order, each with
      the same entry, nested lists included. */
  lemma {:induction false} ListReadsBack(pl: ParameterList)
    requires ReadableList(pl)
    decreases pl
    ensures ReadList(pl) == Ok(List(pl))
  {
    ParamsReadBack(pl.params);
    var items := Pairs(pl.params);
    MapItemsDistinct(items);
    assert ItemParams(items) == pl.params;
  }
}
