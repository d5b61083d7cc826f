/** Reading back the flow sequences "[a, b, c]" that writeParameter writes
    for arrays: the text between the brackets, cut at each comma and the
    blank after it. This stands in for the scanner, which is not part of the
    model, for items that hold no comma. */
module YamlFlow {
  import opened YamlWriter

  /** The position of the last comma of `t`, or -1 when there is none. */
  function LastComma(t: string): (r: int)
    ensures -1 <= r < |t|
    ensures r >= 0 ==> t[r] == ','
    ensures forall k :: r < k < |t| ==> t[k] != ','
    decreases |t|
  {
    if |t| == 0 then -1
    else if t[|t| - 1] == ',' then |t| - 1
    else LastComma(t[..|t| - 1])
  }

  /** The items between the brackets of a flow sequence, cut at each comma
      with the blank after it: the reading of a flow sequence whose items
      hold no comma. */
  function SplitItems(t: string): (r: seq<string>)
    ensures |r| >= 1
    decreases |t|
  {
    var i := LastComma(t);
    if i < 0 then [t]
    else
      var start := if i + 1 < |t| && t[i + 1] == ' ' then i + 2 else i + 1;
      SplitItems(t[..i]) + [t[start..]]
  }

  /** A flow sequence's text with its brackets taken off. */
  function FlowBody(t: string): (r: string)
    requires |t| >= 2
    ensures |r| == |t| - 2
  {
    t[1..|t| - 1]
  }

  /** The last comma is the comma nothing after which is a comma. */
  lemma {:induction false} LastCommaUnique(t: string, p: nat)
    requires p < |t| && t[p] == ','
    requires forall k :: p < k < |t| ==> t[k] != ','
    ensures LastComma(t) == p
  {
  }

  lemma {:induction false} LastCommaOfJoin(a: string, b: string)
    requires ',' !in b
    ensures LastComma(a + ", " + b) == |a|
  {
    var u := a + ", ";
    var t := u + b;
    assert t[|a|] == ',' && t[|a| + 1] == ' ';
    forall k | |u| <= k < |t| ensures t[k] != ',' {
      var j := k - |u|;
      assert t[k] == b[j];
    }
    LastCommaUnique(t, |a|);
  }

  /** Cutting after the last separator splits off the last item. */
  lemma {:induction false} SplitItemsSnoc(a: string, b: string)
    requires ',' !in b
    ensures SplitItems(a + ", " + b) == SplitItems(a) + [b]
  {
    var t := a + ", " + b;
    LastCommaOfJoin(a, b);
    assert t[..|a|] == a && t[|a| + 2..] == b;
  }

  /** An item without a comma is not cut. */
  lemma {:induction false} SplitItemsOne(t: string)
    requires ',' !in t
    ensures SplitItems(t) == [t]
  {
    assert forall k :: 0 <= k < |t| ==> t[k] != ',';
    assert LastComma(t) == -1;
  }

  /** Cutting the joined items at the separators gives the items back. */
  lemma {:induction false} SplitJoin(items: seq<string>)
    requires |items| >= 1 && forall k :: 0 <= k < |items| ==> ',' !in items[k]
    ensures SplitItems(Join(items)) == items
  {
    var n := |items|;
    if n == 1 {
      SplitItemsOne(items[0]);
    } else {
      var init := items[..n - 1];
      SplitItemsSnoc(Join(init), items[n - 1]);
      SplitJoin(init);
      assert init + [items[n - 1]] == items;
    }
  }
}
