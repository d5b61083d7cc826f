/** The Teuchos YAML writer: a parameter list printed as a YAML 1.1 document.
    The output stream is a class whose text grows as the writers append to it;
    each writer is proved to append exactly the text a pure function of its
    arguments describes, and those functions carry the properties. */
module YamlWriter {
  import opened YamlValues
  import opened YamlNumbers

  // ---------------------------------------------------------------------------
  // quoting

  /** The characters whose presence makes a string need quotes. */
  const ControlChars: string := ":{}[],&*#?|-<>=!%@\\"

  /** `find_first_of`: the first position of `s` holding one of `chars`, or
      `|s|` when there is none. */
  function FindFirstOf(s: string, chars: string): (r: nat)
    ensures r <= |s|
    ensures r < |s| ==> s[r] in chars
    ensures forall k :: 0 <= k < r ==> s[k] !in chars
  {
    if |s| == 0 then 0
    else if s[0] in chars then 0
    else 1 + FindFirstOf(s[1..], chars)
  }

  /** containsSpecialCharacters. */
  predicate ContainsSpecialCharacters(s: string) {
    FindFirstOf(s, ControlChars) < |s|
  }

  /** A string contains a special character exactly when one of its
      characters is a control character. */
  lemma {:induction false} ContainsSpecialCharactersSpec(s: string)
    ensures ContainsSpecialCharacters(s) <==> exists k :: 0 <= k < |s| && s[k] in ControlChars
  {
  }

  /** stringNeedsQuotes: a special character, or a whole int or double
      numeral, which unquoted would be read back as a number. */
  predicate StringNeedsQuotes(s: string) {
    ContainsSpecialCharacters(s) || CanBeParsedAsInt(s) || CanBeParsedAsDouble(s)
  }

  /** What generalWriteString prints: the string in single quotes when it needs
      them, verbatim otherwise. */
  function QuotedText(s: string): (r: string)
    ensures StringNeedsQuotes(s) ==> r == "'" + s + "'"
    ensures !StringNeedsQuotes(s) ==> r == s
  {
    if StringNeedsQuotes(s) then "'" + s + "'" else s
  }

  // ---------------------------------------------------------------------------
  // texts

  function Spaces(n: nat): (r: string)
    ensures |r| == n && forall k :: 0 <= k < n ==> r[k] == ' '
  {
    seq(n, k => ' ')
  }

  /** Items separated by ", ", nothing before the first. */
  function Join(items: seq<string>): (r: string)
  {
    if |items| == 0 then ""
    else if |items| == 1 then items[0]
    else Join(items[..|items| - 1]) + ", " + items[|items| - 1]
  }

  /** A flow sequence: "[a, b, c]". */
  function FlowText(items: seq<string>): (r: string)
  {
    "[" + Join(items) + "]"
  }

  /** Each element of `a` printed by `f`. */
  function Items<T>(a: seq<T>, f: T -> string): (r: seq<string>)
    ensures |r| == |a| && forall k {:trigger r[k]} :: 0 <= k < |a| ==> r[k] == f(a[k])
  {
    seq(|a|, k requires 0 <= k < |a| => f(a[k]))
  }

  /** Row `i` of a 2-D array as a flow sequence. */
  function RowText<T>(arr: TwoD<T>, f: T -> string, i: nat): (r: string)
    requires arr.Valid() && i < arr.rows
  {
    FlowText(RowCells(arr, f, i))
  }

  /** The cells of row `i`, each printed by `f`. */
  function RowCells<T>(arr: TwoD<T>, f: T -> string, i: nat): (r: seq<string>)
    requires arr.Valid() && i < arr.rows
    ensures |r| == arr.cols && forall j {:trigger r[j]} :: 0 <= j < arr.cols ==> r[j] == f(arr.Cell(i, j))
  {
    seq(arr.cols, j requires 0 <= j < arr.cols => f(arr.Cell(i, j)))
  }

  /** A 2-D array as a flow sequence of its rows: "[[a, b], [c, d]]". */
  function GridText<T>(arr: TwoD<T>, f: T -> string): (r: string)
    requires arr.Valid()
  {
    FlowText(GridRows(arr, f))
  }

  /** The rows of a 2-D array, each as a flow sequence. */
  function GridRows<T>(arr: TwoD<T>, f: T -> string): (r: seq<string>)
    requires arr.Valid()
    ensures |r| == arr.rows && forall i {:trigger r[i]} :: 0 <= i < arr.rows ==> r[i] == RowText(arr, f, i)
  {
    seq(arr.rows, i requires 0 <= i < arr.rows => RowText(arr, f, i))
  }

  /** What `stream << n` prints for an int. */
  function IntText(n: Int32): string {
    IntToString(n as int)
  }

  /** What generalWriteDouble prints: the double's text. */
  function DoubleText(d: Double): string {
    d.text
  }

  /** The first position at or after `from` holding `c`, or `|s|` when there
      is none (`find`, with `npos` as `|s|`). */
  function Find(s: string, c: char, from: nat): (r: nat)
    requires from <= |s|
    ensures from <= r <= |s|
    decreases |s| - from
  {
    if from == |s| then from
    else if s[from] == c then from
    else Find(s, c, from + 1)
  }

  /** Find stops at the first `c` at or after `from`, or at the end. */
  lemma {:induction false} FindSpec(s: string, c: char, from: nat)
    requires from <= |s|
    ensures var r := Find(s, c, from);
      && (r < |s| ==> s[r] == c)
      && (forall k :: from <= k < r ==> s[k] != c)
    decreases |s| - from
  {
    if from < |s| && s[from] != c {
      FindSpec(s, c, from + 1);
    }
  }

  /** The lines of `s` from position `from` on, each after `pad` spaces,
      joined by line breaks. */
  function BlockLines(s: string, from: nat, pad: nat): (r: string)
    requires from <= |s|
    decreases |s| - from
  {
    var next := Find(s, '\n', from);
    if next == |s| then Spaces(pad) + s[from..]
    else Spaces(pad) + s[from..next] + "\n" + BlockLines(s, next + 1, pad)
  }

  lemma {:induction false} ConcatAssoc(a: string, b: string, c: string)
    ensures (a + b) + c == a + (b + c)
  {
  }

  /** Moving one line from the text still to write to the text written. */
  lemma {:induction false} WrittenStep(written: string, line: string, rest: string, rest': string, target: string)
    requires written + rest == target && rest == line + rest'
    ensures (written + line) + rest' == target
  {
    ConcatAssoc(written, line, rest');
  }

  /** One step of BlockLines: the line up to the next line break, or the
      rest of the text when there is none. */
  lemma {:induction false} BlockLinesStep(s: string, from: nat, pad: nat, next: nat)
    requires from <= |s| && next == Find(s, '\n', from)
    ensures next == |s| ==> BlockLines(s, from, pad) == Spaces(pad) + s[from..]
    ensures next < |s| ==> BlockLines(s, from, pad) == Spaces(pad) + (s[from..next] + "\n") + BlockLines(s, next + 1, pad)
  {
    if next < |s| {
      ConcatAssoc(Spaces(pad), s[from..next], "\n");
    }
  }

  /** Writing the indentation and the last line completes the block. */
  lemma {:induction false} BlockWriteLast(before: string, s: string, index: nat, pad: nat, target: string)
    requires index <= |s| && Find(s, '\n', index) == |s|
    requires before + BlockLines(s, index, pad) == target
    ensures (before + Spaces(pad)) + s[index..] == target
  {
    BlockLinesStep(s, index, pad, |s|);
    ConcatAssoc(before, Spaces(pad), s[index..]);
  }

  /** Writing the indentation and a line with its line break leaves the
      lines after it to write. */
  lemma {:induction false} BlockWriteStep(before: string, s: string, index: nat, next: nat, pad: nat, target: string)
    requires index <= |s| && next == Find(s, '\n', index) && next < |s|
    requires before + BlockLines(s, index, pad) == target
    ensures (before + Spaces(pad)) + (s[index..next] + "\n") + BlockLines(s, next + 1, pad) == target
  {
    BlockLinesStep(s, index, pad, next);
    var line := s[index..next] + "\n";
    ConcatAssoc(before, Spaces(pad), line);
    WrittenStep(before, Spaces(pad) + line, BlockLines(s, index, pad), BlockLines(s, next + 1, pad), target);
  }

  /** A multi-line string: a literal block scalar with indentation indicator 2
      and strip chomping, its lines indented two past the parameter. */
  function BlockText(s: string, indent: nat): (r: string)
  {
    "|2-\n" + BlockLines(s, 0, indent + 2)
  }

  /** Find returns the first position holding `c`. */
  lemma {:induction false} FindFirst(s: string, c: char, from: nat, r: nat)
    requires from <= r <= |s| && forall k :: from <= k < r ==> s[k] != c
    requires r == |s| || s[r] == c
    ensures Find(s, c, from) == r
    decreases r - from
  {
    if from < r {
      FindFirst(s, c, from + 1, r);
    }
  }

  /** A line read back from a literal block: without its first `pad`
      characters, the indentation the block's header fixes. */
  function DropIndent(line: string, pad: nat): (r: string)
  {
    if |line| <= pad then "" else line[pad..]
  }

  /** The content of a literal block (strip chomping): its lines without their
      indentation, joined by line breaks, no line break at the end. */
  function Dedent(t: string, pad: nat): (r: string)
    decreases |t|
  {
    var e := Find(t, '\n', 0);
    if e == |t| then DropIndent(t, pad)
    else DropIndent(t[..e], pad) + "\n" + Dedent(t[e + 1..], pad)
  }

  /** An indented line holds no line break and loses exactly its indent. */
  lemma {:induction false} IndentedLine(s: string, from: nat, next: nat, pad: nat)
    requires from <= next <= |s| && forall k :: from <= k < next ==> s[k] != '\n'
    ensures var u := Spaces(pad) + s[from..next];
      && (forall k :: 0 <= k < |u| ==> u[k] != '\n')
      && DropIndent(u, pad) == s[from..next]
  {
    var u := Spaces(pad) + s[from..next];
    assert u[pad..] == s[from..next];
    forall k | 0 <= k < |u|
      ensures u[k] != '\n'
    {
      if k >= pad {
        assert u[k] == s[from + k - pad];
      }
    }
  }

  /** Reading back a last line. */
  lemma {:induction false} DedentLast(u: string, pad: nat)
    requires forall k :: 0 <= k < |u| ==> u[k] != '\n'
    ensures Dedent(u, pad) == DropIndent(u, pad)
  {
    FindFirst(u, '\n', 0, |u|);
  }

  /** Reading back a line followed by a line break and more lines. */
  lemma {:induction false} DedentStep(u: string, rest: string, pad: nat)
    requires forall k :: 0 <= k < |u| ==> u[k] != '\n'
    ensures Dedent(u + "\n" + rest, pad) == DropIndent(u, pad) + "\n" + Dedent(rest, pad)
  {
    var t := u + "\n" + rest;
    assert forall k :: 0 <= k < |u| ==> t[k] == u[k];
    FindFirst(t, '\n', 0, |u|);
    assert t[..|u|] == u;
    assert t[|u| + 1..] == rest;
  }

  /** The lines written for a multi-line string read back as that string. */
  lemma {:induction false} BlockLinesDedent(s: string, from: nat, pad: nat)
    requires from <= |s|
    ensures Dedent(BlockLines(s, from, pad), pad) == s[from..]
    decreases |s| - from
  {
    var next := Find(s, '\n', from);
    FindSpec(s, '\n', from);
    if next == |s| {
      BlockLinesStep(s, from, pad, next);
      IndentedLine(s, from, next, pad);
      DedentLast(Spaces(pad) + s[from..next], pad);
      assert s[from..next] == s[from..];
    } else {
      DedentLineStep(s, from, pad, next);
      BlockLinesDedent(s, next + 1, pad);
      SplitAtBreak(s, from, next);
    }
  }

  /** Reading back one line that ends in a line break. */
  lemma {:induction false} DedentLineStep(s: string, from: nat, pad: nat, next: nat)
    requires from <= next < |s| && next == Find(s, '\n', from)
    requires forall k :: from <= k < next ==> s[k] != '\n'
    ensures Dedent(BlockLines(s, from, pad), pad) == s[from..next] + "\n" + Dedent(BlockLines(s, next + 1, pad), pad)
  {
    BlockLinesStep(s, from, pad, next);
    IndentedLine(s, from, next, pad);
    var u := Spaces(pad) + s[from..next];
    var rest := BlockLines(s, next + 1, pad);
    ConcatAssoc(Spaces(pad), s[from..next], "\n");
    assert BlockLines(s, from, pad) == u + "\n" + rest;
    DedentStep(u, rest, pad);
  }

  lemma {:induction false} SplitAtBreak(s: string, from: nat, next: nat)
    requires from <= next < |s| && s[next] == '\n'
    ensures s[from..] == s[from..next] + "\n" + s[next + 1..]
  {
  }

  /** A string written as a block reads back as itself. */
  lemma {:induction false} BlockRoundTrip(s: string, indent: nat)
    ensures BlockText(s, indent)[..4] == "|2-\n"
    ensures Dedent(BlockText(s, indent)[4..], indent + 2) == s
  {
    var b := BlockText(s, indent);
    assert b[4..] == BlockLines(s, 0, indent + 2);
    BlockLinesDedent(s, 0, indent + 2);
    assert s[0..] == s;
  }

  /** What writeParameter prints after "name: " for an entry that is not a
      list, before the final line break. */
  function ValueText(e: Entry, indent: nat): (r: string)
    requires !e.ListE?
    requires e.IntGridE? ==> e.ig.Valid()
    requires e.DoubleGridE? ==> e.dg.Valid()
    requires e.StringGridE? ==> e.sg.Valid()
  {
    match e
    case IntArrayE(a) => FlowText(Items(a, IntText))
    case DoubleArrayE(a) => FlowText(Items(a, DoubleText))
    case StringArrayE(a) => FlowText(Items(a, QuotedText))
    case OtherE(OtherArray) => "[]"
    case IntGridE(g) => GridText(g, IntText)
    case DoubleGridE(g) => GridText(g, DoubleText)
    case StringGridE(g) => GridText(g, QuotedText)
    case IntE(n) => IntText(n)
    case DoubleE(d) => DoubleText(d)
    case StringE(s) => if '\n' in s then BlockText(s, indent) else QuotedText(s)
    case BoolE(b) => if b then "true" else "false"
    case OtherE(_) => ""
  }

  /** Every 2-D array anywhere in the entry, nested lists included, is well
      formed. */
  predicate ValidEntry(e: Entry)
    decreases e
  {
    match e
    case IntGridE(g) => g.Valid()
    case DoubleGridE(g) => g.Valid()
    case StringGridE(g) => g.Valid()
    case ListE(pl) => ValidList(pl)
    case _ => true
  }

  predicate ValidList(pl: ParameterList)
    decreases pl
  {
    forall k :: 0 <= k < |pl.params| ==> ValidEntry(pl.params[k].entry)
  }

  /** writeParameter: the indent, the name (quoted if need be), ": ", then a
      nested list at two more columns, or the value and a line break. */
  function ParamText(name: string, e: Entry, indent: nat): (r: string)
    requires ValidEntry(e)
    decreases e, 1
  {
    Spaces(indent) + QuotedText(name) + ": "
      + if e.ListE? then ListText(e.list, indent + 2) else ValueText(e, indent) + "\n"
  }

  /** writeParameterList: "{ }" for an empty list, else a line break and the
      parameters in order. */
  function ListText(pl: ParameterList, indent: nat): (r: string)
    requires ValidList(pl)
    decreases pl, 0
  {
    if |pl.params| == 0 then "{ }\n" else "\n" + ParamsText(pl.params, indent)
  }

  function ParamsText(ps: seq<Param>, indent: nat): (r: string)
    requires forall k :: 0 <= k < |ps| ==> ValidEntry(ps[k].entry)
    decreases ps
  {
    if |ps| == 0 then ""
    else ParamsText(ps[..|ps| - 1], indent) + ParamText(ps[|ps| - 1].name, ps[|ps| - 1].entry, indent)
  }

  lemma {:induction false} ParamsTextSnoc(ps: seq<Param>, i: nat, indent: nat)
    requires i < |ps| && forall k :: 0 <= k < |ps| ==> ValidEntry(ps[k].entry)
    ensures ParamsText(ps[..i + 1], indent) == ParamsText(ps[..i], indent) + ParamText(ps[i].name, ps[i].entry, indent)
  {
    assert ps[..i + 1][..i] == ps[..i];
  }

  const Header: string := "%YAML 1.1\n---\nANONYMOUS:"
  const Footer: string := "...\n"

  /** writeYamlStream: the header, the top-level list at indent 2 under the
      name ANONYMOUS, and the end-of-document marker. */
  function DocumentText(pl: ParameterList): (r: string)
    requires ValidList(pl)
  {
    Header + (if |pl.params| == 0 then " { }\n" else ListText(pl, 2)) + Footer
  }

  /** Writing the next item, after a separator unless it is the first, extends
      the joined text by one item. */
  lemma {:induction false} JoinAppend(head: string, items: seq<string>, i: nat)
    requires i < |items|
    ensures head + Join(items[..i]) + ((if i > 0 then ", " else "") + items[i]) == head + Join(items[..i + 1])
  {
    JoinSnoc(items, i);
    var before := Join(items[..i]);
    var piece := (if i > 0 then ", " else "") + items[i];
    ConcatAssoc(head, before, piece);
    if i > 0 {
      ConcatAssoc(before, ", ", items[i]);
    }
  }

  lemma {:induction false} JoinSnoc(items: seq<string>, i: nat)
    requires i < |items|
    ensures Join(items[..i + 1]) == if i == 0 then items[0] else Join(items[..i]) + ", " + items[i]
  {
    assert items[..i + 1][..i] == items[..i];
  }

  // ---------------------------------------------------------------------------
  // the output stream

  /** An output stream: the text written to it so far. */
  class YamlStream {
    var text: string

    constructor ()
      ensures text == ""
    {
      text := "";
    }

    /** `stream << s`. */
    method Put(s: string)
      modifies this
      ensures text == old(text) + s
    {
      text := text + s;
    }

    /** The loop that writes `n` spaces of indentation. */
    method WriteIndent(n: nat)
      modifies this
      ensures text == old(text) + Spaces(n)
    {
      for i := 0 to n
        invariant text == old(text) + Spaces(i)
      {
        assert Spaces(i + 1) == Spaces(i) + " ";
        Put(" ");
      }
    }

    /** generalWriteString. */
    method WriteString(s: string)
      modifies this
      ensures text == old(text) + QuotedText(s)
    {
      if StringNeedsQuotes(s) {
        Put("'");
        Put(s);
        Put("'");
      } else {
        Put(s);
      }
    }

    /** The 1-D array branch of writeParameter: each element followed by ", "
      unless it is the last, between brackets. */
    method WriteArray<T>(a: seq<T>, f: T -> string)
      modifies this
      ensures text == old(text) + FlowText(Items(a, f))
    {
      ghost var items := Items(a, f);
      ghost var start := text;
      Put("[");
      for i := 0 to |a|
        invariant text == start + ("[" + (Join(items[..i]) + (if 0 < i < |a| then ", " else "")))
      {
        JoinSnoc(items, i);
        ghost var done := Join(items[..i]) + (if 0 < i then ", " else "");
        assert done + items[i] == Join(items[..i + 1]);
        Put(f(a[i]));
        ConcatAssoc(start, "[" + done, items[i]);
        ConcatAssoc("[", done, items[i]);
        ghost var sep := if i != |a| - 1 then ", " else "";
        if i != |a| - 1 {
          Put(", ");
        }
        ConcatAssoc(start, "[" + Join(items[..i + 1]), sep);
        ConcatAssoc("[", Join(items[..i + 1]), sep);
      }
      assert items[..|a|] == items;
      Put("]");
      ConcatAssoc(start, "[" + Join(items), "]");
    }

    /** One row of writeYamlTwoDArray: ", " first unless it is the first row,
      then its cells between brackets, each preceded by ", " unless it is the
      first. */
    method WriteRow<T>(arr: TwoD<T>, f: T -> string, i: nat)
      requires arr.Valid() && i < arr.rows
      modifies this
      ensures text == old(text) + ((if i > 0 then ", " else "") + RowText(arr, f, i))
    {
      ghost var cells := RowCells(arr, f, i);
      ghost var start := text;
      ghost var sep := if i > 0 then ", " else "";
      if i > 0 {
        Put(", ");
      }
      Put("[");
      ghost var head := text;
      for j := 0 to arr.cols
        invariant text == head + Join(cells[..j])
      {
        JoinSnoc(cells, j);
        ghost var before := Join(cells[..j]);
        if j > 0 {
          Put(", ");
          ConcatAssoc(head, before, ", ");
        }
        ghost var mid := if j > 0 then before + ", " else before;
        Put(f(arr.Cell(i, j)));
        assert cells[j] == f(arr.Cell(i, j));
        ConcatAssoc(head, mid, cells[j]);
      }
      assert cells[..arr.cols] == cells;
      Put("]");
      assert head == start + (sep + "[");
      ConcatAssoc(head, Join(cells), "]");
      ConcatAssoc(start, sep + "[", Join(cells) + "]");
      ConcatAssoc(sep, "[", Join(cells) + "]");
      ConcatAssoc("[", Join(cells), "]");
    }

    /** writeYamlTwoDArray: the rows between brackets. */
    method WriteTwoDArray<T>(arr: TwoD<T>, f: T -> string)
      requires arr.Valid()
      modifies this
      ensures text == old(text) + GridText(arr, f)
    {
      ghost var rows := GridRows(arr, f);
      ghost var start := text;
      Put("[");
      ghost var head := text;
      for i := 0 to arr.rows
        invariant text == head + Join(rows[..i])
      {
        WriteRow(arr, f, i);
        JoinAppend(head, rows, i);
      }
      assert rows[..arr.rows] == rows;
      Put("]");
      ConcatAssoc(head, Join(rows), "]");
      ConcatAssoc(start, "[", Join(rows) + "]");
      ConcatAssoc("[", Join(rows), "]");
    }

    /** The multi-line string branch of writeParameter: "|2-" and a line
      break, then line by line the indentation and the line, with a line
      break after every line but the last. */
    method WriteBlock(s: string, indent: nat)
      modifies this
      ensures text == old(text) + BlockText(s, indent)
    {
      ghost var target := old(text) + BlockText(s, indent);
      var pad := indent + 2;
      ConcatAssoc(text, "|2-\n", BlockLines(s, 0, pad));
      Put("|2-\n");
      var index := 0;
      while true
        invariant index <= |s|
        invariant text + BlockLines(s, index, pad) == target
        decreases |s| - index
      {
        var next := Find(s, '\n', index);
        ghost var before := text;
        WriteIndent(pad);
        if next == |s| {
          BlockWriteLast(before, s, index, pad, target);
          Put(s[index..]);
          break;
        }
        BlockWriteStep(before, s, index, next, pad, target);
        Put(s[index..next] + "\n");
        index := next + 1;
      }
    }
  
    /** The value branches of writeParameter for an entry that is not a list:
      arrays, 2-D arrays, ints, doubles, strings (multi-line ones as a block)
      and bools; an entry of any other type writes nothing, or "[]" for an
      array of another element type. */
    method WriteValue(e: Entry, indent: nat)
      requires !e.ListE? && ValidEntry(e)
      modifies this
      ensures text == old(text) + ValueText(e, indent)
    {
      match e
      case IntArrayE(a) => WriteArray(a, IntText);
      case DoubleArrayE(a) => WriteArray(a, DoubleText);
      case StringArrayE(a) => WriteArray(a, QuotedText);
      case OtherE(OtherArray) => Put("["); Put("]");
      case IntGridE(g) => WriteTwoDArray(g, IntText);
      case DoubleGridE(g) => WriteTwoDArray(g, DoubleText);
      case StringGridE(g) => WriteTwoDArray(g, QuotedText);
      case IntE(n) => Put(IntText(n));
      case DoubleE(d) => Put(DoubleText(d));
      case StringE(str) =>
        if '\n' in str {
          WriteBlock(str, indent);
        } else {
          WriteString(str);
        }
      case BoolE(b) => Put(if b then "true" else "false");
      case OtherE(_) =>
    }

    /** writeParameter. */
    method WriteParameter(name: string, e: Entry, indent: nat)
      requires ValidEntry(e)
      modifies this
      ensures text == old(text) + ParamText(name, e, indent)
      decreases e, 1
    {
      ghost var start := text;
      WriteIndent(indent);
      WriteString(name);
      Put(": ");
      ghost var head := Spaces(indent) + QuotedText(name) + ": ";
      ConcatAssoc(start, Spaces(indent), QuotedText(name));
      ConcatAssoc(start, Spaces(indent) + QuotedText(name), ": ");
      if e.ListE? {
        WriteParameterList(e.list, indent + 2);
        ConcatAssoc(start, head, ListText(e.list, indent + 2));
        return;
      }
      WriteValue(e, indent);
      Put("\n");
      ConcatAssoc(start, head, ValueText(e, indent));
      ConcatAssoc(start, head + ValueText(e, indent), "\n");
      ConcatAssoc(head, ValueText(e, indent), "\n");
    }

    /** writeParameterList: "{ }" and a line break for an empty list, else a
      line break and each parameter in order. */
    method WriteParameterList(pl: ParameterList, indent: nat)
      requires ValidList(pl)
      modifies this
      ensures text == old(text) + ListText(pl, indent)
      decreases pl, 0
    {
      ghost var start := text;
      var ps := pl.params;
      if |ps| == 0 {
        Put("{ }\n");
      } else {
        Put("\n");
        ghost var head := text;
        for i := 0 to |ps|
          invariant text == head + ParamsText(ps[..i], indent)
        {
          ParamsTextSnoc(ps, i, indent);
          assert ps[i] in pl.params;
          ghost var done := ParamsText(ps[..i], indent);
          WriteParameter(ps[i].name, ps[i].entry, indent);
          ConcatAssoc(head, done, ParamText(ps[i].name, ps[i].entry, indent));
        }
        assert ps[..|ps|] == ps;
        ConcatAssoc(start, "\n", ParamsText(ps, indent));
      }
    }

    /** writeYamlStream, without the check of the stream's format flags. */
    method WriteYamlStream(pl: ParameterList)
      requires ValidList(pl)
      modifies this
      ensures text == old(text) + DocumentText(pl)
    {
      ghost var start := text;
      Put(Header);
      ghost var body := if |pl.params| == 0 then " { }\n" else ListText(pl, 2);
      if |pl.params| == 0 {
        Put(" { }\n");
      } else {
        WriteParameterList(pl, 2);
      }
      Put(Footer);
      ConcatAssoc(start, Header, body);
      ConcatAssoc(start, Header + body, Footer);
    }
  }
}
