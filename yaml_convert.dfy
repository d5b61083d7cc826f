/** The name convertXmlToYaml gives the YAML file it writes for an XML
    parameter file. */
module YamlConvert {

  const XmlExt: string := ".xml"
  const YamlExt: string := ".yaml"

  /** `.xml` occurs in `x` starting at `i`. */
  predicate XmlAt(x: string, i: nat) {
    i + 4 <= |x| && x[i..i + 4] == XmlExt
  }

  /** `.xml` occurs somewhere in `x`. */
  predicate ContainsXml(x: string) {
    exists i: nat :: i < |x| && XmlAt(x, i)
  }

  /** `x` ends with `.xml`. */
  predicate EndsWithXml(x: string) {
    |x| >= 4 && XmlAt(x, |x| - 4)
  }

  /** `std::string::find(".xml", from)`: the first position at or after `from`
      where `.xml` starts, or `|x|` standing for `npos`. */
  function FindXml(x: string, from: nat): (r: nat)
    requires from <= |x|
    ensures from <= r <= |x|
    ensures r < |x| ==> XmlAt(x, r)
    decreases |x| - from
  {
    if from + 4 > |x| then |x|
    else if x[from..from + 4] == XmlExt then from
    else FindXml(x, from + 1)
  }

  /** find reports npos exactly when `.xml` does not occur. */
  lemma {:induction false} FindXmlSpec(x: string, from: nat)
    requires from <= |x|
    ensures forall i: nat :: from <= i < FindXml(x, from) ==> !XmlAt(x, i)
    ensures FindXml(x, from) == |x| <==> forall i: nat :: from <= i < |x| ==> !XmlAt(x, i)
    decreases |x| - from
  {
    if from + 4 > |x| {
    } else if x[from..from + 4] == XmlExt {
      assert XmlAt(x, from);
    } else {
      FindXmlSpec(x, from + 1);
    }
  }

  lemma {:induction false} FindXmlNpos(x: string)
    ensures FindXml(x, 0) == |x| <==> !ContainsXml(x)
  {
    FindXmlSpec(x, 0);
  }

  /** The name as lines 420-424 compute it: when `.xml` occurs anywhere, the
      last four characters are dropped, whatever they are, and `.yaml` is
      appended; otherwise `.yaml` is appended. */
  function YamlFileNameAsWritten(x: string): (r: string)
    ensures |r| >= 5 && r[|r| - 5..] == YamlExt
  {
    if FindXml(x, 0) == |x| then x + YamlExt
    else x[..|x| - 4] + YamlExt
  }

  /** The name as the comment at line 419 describes it: a trailing `.xml`
      becomes `.yaml`, and a name without that extension gets `.yaml`
      appended. */
  function YamlFileName(x: string): (r: string)
    ensures |r| >= 5 && r[|r| - 5..] == YamlExt
  {
    if EndsWithXml(x) then x[..|x| - 4] + YamlExt else x + YamlExt
  }

  /** The XML name is recovered from the YAML name: drop `.yaml`, and put
      `.xml` back exactly when the XML name had it. */
  lemma {:induction false} YamlFileNameInverts(x: string)
    ensures var r := YamlFileName(x);
      r[..|r| - 5] + (if EndsWithXml(x) then XmlExt else "") == x
  {
    var r := YamlFileName(x);
    if EndsWithXml(x) {
      assert r[..|r| - 5] == x[..|x| - 4];
      assert x[..|x| - 4] + x[|x| - 4..] == x;
    } else {
      assert r[..|r| - 5] == x;
    }
  }

  /** The code agrees with that rule exactly when `.xml` either does not occur
      in the name or ends it. */
  lemma {:induction false} AsWrittenAgreesIff(x: string)
    ensures YamlFileNameAsWritten(x) == YamlFileName(x) <==> EndsWithXml(x) || !ContainsXml(x)
  {
    FindXmlNpos(x);
    if EndsWithXml(x) {
      assert ContainsXml(x);
    } else if ContainsXml(x) {
      assert |YamlFileNameAsWritten(x)| == |x| + 1;
      assert |YamlFileName(x)| == |x| + 5;
    }
  }

  /** A name holding `.xml` but not ending with it loses its last four
      characters, whatever they are. */
  lemma {:induction false} InnerXmlDropsTail(x: string)
    requires ContainsXml(x) && !EndsWithXml(x)
    ensures YamlFileNameAsWritten(x) == x[..|x| - 4] + YamlExt
    ensures YamlFileName(x) == x + YamlExt
  {
    FindXmlNpos(x);
  }

  /** `a.xml.bak` has `.xml` inside it but not at its end: the code names its
      YAML file `a.xml.yaml`, not `a.xml.bak.yaml`. */
  lemma {:induction false} InnerXmlExample()
    ensures YamlFileNameAsWritten("a.xml.bak") == "a.xml.yaml"
    ensures YamlFileName("a.xml.bak") == "a.xml.bak.yaml"
  {
    var x := "a.xml.bak";
    assert XmlAt(x, 1) by {
      assert x[1..5] == XmlExt;
    }
    assert !EndsWithXml(x) by {
      assert x[5..9] == ".bak";
    }
    InnerXmlDropsTail(x);
    assert x[..|x| - 4] == "a.xml";
  }
}
