/** Reading numbers with `std::istream >> int` and `std::istream >> double` (the
    libstdc++ num_get rules), as the YAML reader and writer use them, modelled
    as recognisers on strings; and the decimal text `<<` prints for an int.

    Extraction is greedy: the longest prefix that has the shape of a numeral is
    taken, and the extraction fails if that prefix is not a complete numeral
    (no digits, or an exponent marker with no digits after it) or, for int, if
    its value lies outside the 32-bit range. */
module YamlNumbers {
  import opened Wrappers
  import opened YamlValues

  predicate IsDigit(c: char) {
    '0' <= c <= '9'
  }

  /** The characters `std::isspace` accepts in the "C" locale. */
  predicate IsSpace(c: char) {
    c == ' ' || c == '\t' || c == '\n' || c == '\U{0B}' || c == '\U{0C}' || c == '\r'
  }

  predicate IsSign(c: char) {
    c == '+' || c == '-'
  }

  predicate InInt32(v: int) {
    Int32Min <= v <= Int32Max
  }

  /** What the default `skipws` flag skips before an extraction. */
  function SkipWs(s: string): (r: string)
    ensures |r| <= |s| && r == s[|s| - |r|..]
    ensures |r| > 0 ==> !IsSpace(r[0])
  {
    if |s| > 0 && IsSpace(s[0]) then SkipWs(s[1..]) else s
  }

  function SignLen(s: string): (n: nat)
    ensures n <= 1 && n <= |s|
    ensures n == 1 <==> |s| > 0 && IsSign(s[0])
  {
    if |s| > 0 && IsSign(s[0]) then 1 else 0
  }

  function DigitValue(c: char): (d: nat)
    requires IsDigit(c)
    ensures d < 10
  {
    c as int - '0' as int
  }

  /** The value of a string of decimal digits. */
  function DigitsValue(s: string): (v: nat)
    requires forall k :: 0 <= k < |s| ==> IsDigit(s[k])
  {
    if |s| == 0 then 0 else 10 * DigitsValue(s[..|s| - 1]) + DigitValue(s[|s| - 1])
  }

  // ---------------------------------------------------------------------------
  // int

  /** The numeral `>> int` takes from the front of `s` (no whitespace skipping):
      an optional sign and a run of digits. */
  datatype IntScan = IntScan(len: nat, hasDigits: bool, value: int)

  /** Reads the digits of `t` from position `i` on, carrying the value of
      those read so far: where the run of digits ends, and the value of all
      the digits read. */
  function DigitsFrom(t: string, i: nat, acc: nat): (r: (nat, nat))
    requires i <= |t|
    ensures i <= r.0 <= |t|
    decreases |t| - i
  {
    if i < |t| && IsDigit(t[i]) then DigitsFrom(t, i + 1, 10 * acc + DigitValue(t[i])) else (i, acc)
  }

  /** Started on a prefix of digits with its value, the run ends at the first
      non-digit and its value is that of all the digits before it. */
  lemma {:induction false} DigitsFromSpec(t: string, i: nat, acc: nat)
    requires i <= |t| && forall k :: 0 <= k < i ==> IsDigit(t[k])
    requires acc == DigitsValue(t[..i])
    ensures var r := DigitsFrom(t, i, acc);
      && (forall k :: 0 <= k < r.0 ==> IsDigit(t[k]))
      && (r.0 < |t| ==> !IsDigit(t[r.0]))
      && r.1 == DigitsValue(t[..r.0])
    decreases |t| - i
  {
    if i < |t| && IsDigit(t[i]) {
      assert t[..i + 1][..i] == t[..i];
      DigitsFromSpec(t, i + 1, 10 * acc + DigitValue(t[i]));
    }
  }

  /** A string of digits is read in full, with its value. */
  lemma {:induction false} DigitsFromAll(t: string)
    requires forall k :: 0 <= k < |t| ==> IsDigit(t[k])
    ensures DigitsFrom(t, 0, 0) == (|t|, DigitsValue(t))
  {
    assert t[..0] == "";
    DigitsFromSpec(t, 0, 0);
    var r := DigitsFrom(t, 0, 0);
    assert r.0 == |t|;
    assert t[..|t|] == t;
  }

  /** The run stops at the same place when non-digits are appended. */
  lemma {:induction false} DigitsFromAppend(t: string, u: string, i: nat, acc: nat)
    requires i <= |t| && DigitsFrom(t, i, acc).0 == |t|
    requires |u| > 0 && !IsDigit(u[0])
    ensures DigitsFrom(t + u, i, acc) == DigitsFrom(t, i, acc)
    decreases |t| - i
  {
    if i < |t| {
      assert (t + u)[i] == t[i];
      DigitsFromAppend(t, u, i + 1, 10 * acc + DigitValue(t[i]));
    } else {
      assert (t + u)[i] == u[0];
    }
  }

  function ScanInt(s: string): (r: IntScan)
    ensures r.len <= |s|
  {
    var sl := SignLen(s);
    var run := DigitsFrom(s[sl..], 0, 0);
    IntScan(sl + run.0, run.0 > 0, if sl == 1 && s[0] == '-' then -(run.1 as int) else run.1)
  }

  /** `is_parseable_as<int>`: `ss >> value` leaves the stream good, i.e. after
      skipping whitespace a numeral with digits is found and its value fits. */
  predicate IsParseableAsInt(s: string) {
    var sc := ScanInt(SkipWs(s));
    sc.hasDigits && InInt32(sc.value)
  }

  /** `parse_as<int>`: the value read; 0 when no numeral is found, the nearest
      bound when the numeral is out of range. */
  function ParseAsInt(s: string): (r: Int32)
    ensures IsParseableAsInt(s) ==> r as int == ScanInt(SkipWs(s)).value
    ensures !ScanInt(SkipWs(s)).hasDigits ==> r == 0
  {
    var sc := ScanInt(SkipWs(s));
    if !sc.hasDigits then 0
    else if sc.value < Int32Min then Int32Min as Int32
    else if sc.value > Int32Max then Int32Max as Int32
    else sc.value as Int32
  }

  /** `canBeParsedAs<int>`: with `noskipws`, the extraction succeeds and reaches
      the end of the string, i.e. the whole of `s` is one in-range numeral. */
  predicate CanBeParsedAsInt(s: string) {
    var sc := ScanInt(s);
    sc.hasDigits && sc.len == |s| && InInt32(sc.value)
  }

  /** A whole-string int is also recognised with whitespace skipping, with the
      same value. */
  lemma {:induction false} WholeIntIsParseable(s: string)
    requires CanBeParsedAsInt(s)
    ensures IsParseableAsInt(s) && ParseAsInt(s) as int == ScanInt(s).value
  {
    assert |s| > 0 && !IsSpace(s[0]);
  }

  // ---------------------------------------------------------------------------
  // double

  /** The numeral `>> double` takes from the front of `s`, one character at a
      time: an optional sign, digits, optionally a point and digits, and, once a
      digit has been seen, optionally `e`/`E`, an optional sign and digits.
      `valid` says whether the taken characters form a complete numeral. */
  datatype DoubleScan = DoubleScan(len: nat, valid: bool)

  /** Where the scan is: before anything, in the integral digits, in the
      fraction, just after the exponent marker, after the exponent's sign, in
      the exponent's digits. */
  datatype Phase = Start | Whole | Fraction | ExpMarker | ExpSign | ExpDigits

  /** One step of the scan: the next phase and whether a mantissa digit has
      been seen, or None when character `c` ends the numeral. */
  function Step(p: Phase, mantissa: bool, c: char): Option<(Phase, bool)>
  {
    match p
    case Start =>
      if IsSign(c) then Some((Whole, mantissa))
      else if IsDigit(c) then Some((Whole, true))
      else if c == '.' then Some((Fraction, mantissa))
      else None
    case Whole =>
      if IsDigit(c) then Some((Whole, true))
      else if c == '.' then Some((Fraction, mantissa))
      else if (c == 'e' || c == 'E') && mantissa then Some((ExpMarker, mantissa))
      else None
    case Fraction =>
      if IsDigit(c) then Some((Fraction, true))
      else if (c == 'e' || c == 'E') && mantissa then Some((ExpMarker, mantissa))
      else None
    case ExpMarker =>
      if IsSign(c) then Some((ExpSign, mantissa))
      else if IsDigit(c) then Some((ExpDigits, mantissa))
      else None
    case ExpSign =>
      if IsDigit(c) then Some((ExpDigits, mantissa)) else None
    case ExpDigits =>
      if IsDigit(c) then Some((ExpDigits, mantissa)) else None
  }

  /** The taken characters are a complete numeral when a mantissa digit was
      seen and an exponent marker, if any, has its digits. */
  predicate Complete(p: Phase, mantissa: bool) {
    mantissa && p != ExpMarker && p != ExpSign
  }

  function Accumulate(s: string, i: nat, p: Phase, mantissa: bool): (r: DoubleScan)
    requires i <= |s|
    ensures i <= r.len <= |s|
    decreases |s| - i
  {
    if i == |s| then DoubleScan(i, Complete(p, mantissa))
    else
      match Step(p, mantissa, s[i])
      case None => DoubleScan(i, Complete(p, mantissa))
      case Some((p', m')) => Accumulate(s, i + 1, p', m')
  }

  function ScanDouble(s: string): (r: DoubleScan)
    ensures r.len <= |s|
  {
    Accumulate(s, 0, Start, false)
  }

  /** Digits keep the scan in the integral part, the fraction or the exponent,
      and mark the mantissa once seen in it. */
  lemma {:induction false} AccumulateDigits(s: string, i: nat, j: nat, p: Phase, mantissa: bool)
    requires i <= j <= |s| && (p == Whole || p == Fraction || p == ExpDigits)
    requires forall k :: i <= k < j ==> IsDigit(s[k])
    ensures Accumulate(s, i, p, mantissa) == Accumulate(s, j, p, mantissa || (i < j && p != ExpDigits))
    decreases j - i
  {
    if i < j {
      AccumulateDigits(s, i + 1, j, p, mantissa || p != ExpDigits);
    }
  }

  /** An optional sign and digits take the scan into the integral part with a
      mantissa digit seen. */
  lemma {:induction false} ScanSignedPrefix(s: string, n: nat)
    requires SignLen(s) < n <= |s| && forall k :: SignLen(s) <= k < n ==> IsDigit(s[k])
    ensures ScanDouble(s) == Accumulate(s, n, Whole, true)
  {
    if SignLen(s) == 0 {
      assert Step(Start, false, s[0]) == Some((Whole, true));
      AccumulateDigits(s, 1, n, Whole, true);
    } else {
      assert Step(Start, false, s[0]) == Some((Whole, false));
      AccumulateDigits(s, 1, n, Whole, false);
    }
  }

  /** A numeral made of an optional sign and digits, then possibly a point and
      digits, read to the end, is complete. */
  lemma {:induction false} ScanSignedDigits(s: string, n: nat)
    requires SignLen(s) < n <= |s| && forall k :: SignLen(s) <= k < n ==> IsDigit(s[k])
    requires n < |s| ==> s[n] == '.' && forall k :: n < k < |s| ==> IsDigit(s[k])
    ensures ScanDouble(s) == DoubleScan(|s|, true)
  {
    ScanSignedPrefix(s, n);
    if n < |s| {
      assert Step(Whole, true, s[n]) == Some((Fraction, true));
      AccumulateDigits(s, n + 1, |s|, Fraction, true);
    }
  }

  /** `is_parseable_as<double>`, as a recogniser (the range check of the
      conversion is not modelled). */
  predicate IsParseableAsDouble(s: string) {
    ScanDouble(SkipWs(s)).valid
  }

  /** `parse_as<double>`: the numeral read, known by its text; 0 on failure. */
  function ParseAsDouble(s: string): (r: Double)
    ensures IsParseableAsDouble(s) ==> r.text == SkipWs(s)[..ScanDouble(SkipWs(s)).len]
    ensures !IsParseableAsDouble(s) ==> r == Double("0")
  {
    var t := SkipWs(s);
    var sc := ScanDouble(t);
    if sc.valid then Double(t[..sc.len]) else Double("0")
  }

  /** `canBeParsedAs<double>`: the whole of `s` is one complete numeral. */
  predicate CanBeParsedAsDouble(s: string) {
    var sc := ScanDouble(s);
    sc.valid && sc.len == |s|
  }

  /** A whole-string double is also recognised with whitespace skipping, and
      reads back as its own text. */
  lemma {:induction false} WholeDoubleIsParseable(s: string)
    requires CanBeParsedAsDouble(s)
    ensures IsParseableAsDouble(s) && ParseAsDouble(s) == Double(s)
  {
    assert |s| > 0;
    var c := s[0];
    assert IsSpace(c) ==> Step(Start, false, c).None?;
  }

  /** The characters a double scan takes are never a comma. */
  lemma {:induction false} AccumulateTakesNoComma(s: string, i: nat, p: Phase, mantissa: bool)
    requires i <= |s|
    ensures forall k :: i <= k < Accumulate(s, i, p, mantissa).len ==> s[k] != ','
    decreases |s| - i
  {
    if i < |s| && Step(p, mantissa, s[i]).Some? {
      assert Step(p, mantissa, ',').None?;
      var next := Step(p, mantissa, s[i]).value;
      AccumulateTakesNoComma(s, i + 1, next.0, next.1);
    }
  }

  /** A whole double numeral holds no comma, so it is one item of a flow
      sequence. */
  lemma {:induction false} DoubleNumeralHasNoComma(s: string)
    requires CanBeParsedAsDouble(s)
    ensures ',' !in s
  {
    AccumulateTakesNoComma(s, 0, Start, false);
    assert forall k :: 0 <= k < |s| ==> s[k] != ',';
  }

  /** Every whole-string int numeral is a whole-string double numeral too. */
  lemma {:induction false} IntNumeralIsDoubleNumeral(s: string)
    requires CanBeParsedAsInt(s)
    ensures CanBeParsedAsDouble(s)
  {
    var sl := SignLen(s);
    var t := s[sl..];
    assert t[..0] == "";
    DigitsFromSpec(t, 0, 0);
    forall k | sl <= k < |s|
      ensures IsDigit(s[k])
    {
      assert s[k] == t[k - sl];
    }
    ScanSignedDigits(s, |s|);
  }

  // ---------------------------------------------------------------------------
  // int to text

  function DigitChar(d: nat): (c: char)
    requires d < 10
    ensures IsDigit(c) && DigitValue(c) == d
  {
    ('0' as int + d) as char
  }

  /** The decimal digits of `n`, most significant first, without leading zeros. */
  function DigitsOf(n: nat): (r: string)
    ensures |r| >= 1
    ensures forall k :: 0 <= k < |r| ==> IsDigit(r[k])
    ensures DigitsValue(r) == n
  {
    if n < 10 then [DigitChar(n)]
    else
      var r := DigitsOf(n / 10) + [DigitChar(n % 10)];
      assert r[..|r| - 1] == DigitsOf(n / 10);
      r
  }

  /** What `stream << n` prints for an int in the default format. */
  function IntToString(n: int): (r: string)
  {
    if n < 0 then "-" + DigitsOf(-n) else DigitsOf(n)
  }

  /** An int's printed form is a whole-string int numeral of the same value, so
      reading it back in either way yields the int. */
  lemma {:induction false} IntToStringRoundTrip(n: Int32)
    ensures CanBeParsedAsInt(IntToString(n as int))
    ensures IsParseableAsInt(IntToString(n as int))
    ensures ParseAsInt(IntToString(n as int)) == n
  {
    var s := IntToString(n as int);
    if n < 0 {
      ScanDigits("-", DigitsOf(-(n as int)));
    } else {
      ScanDigits("", DigitsOf(n as int));
      assert "" + DigitsOf(n as int) == s;
    }
    WholeIntIsParseable(s);
  }

  /** An optional sign followed by digits scans in full. */
  lemma {:induction false} ScanDigits(sign: string, ds: string)
    requires sign == "" || sign == "-"
    requires |ds| >= 1 && forall k :: 0 <= k < |ds| ==> IsDigit(ds[k])
    ensures ScanInt(sign + ds) == IntScan(|sign| + |ds|, true, if sign == "-" then -(DigitsValue(ds) as int) else DigitsValue(ds))
  {
    var s := sign + ds;
    var sl := SignLen(s);
    assert sl == |sign| by {
      if sign == "" {
        assert s[0] == ds[0];
      } else {
        assert s[0] == '-';
      }
    }
    assert s[sl..] == ds;
    DigitsFromAll(ds);
  }

  // ---------------------------------------------------------------------------
  // prefix against whole-string recognition

  /** Text after a whole numeral that does not start with a digit leaves the
      scan of the numeral unchanged. */
  lemma {:induction false} ScanIntAppend(num: string, rest: string)
    requires CanBeParsedAsInt(num)
    requires |rest| > 0 && !IsDigit(rest[0])
    ensures ScanInt(num + rest) == ScanInt(num)
  {
    var s := num + rest;
    var sl := SignLen(num);
    assert SignLen(s) == sl;
    assert s[sl..] == num[sl..] + rest;
    DigitsFromAppend(num[sl..], rest, 0, 0);
  }

  /** is_parseable_as and parse_as depend only on the scan after the
      whitespace. */
  lemma {:induction false} SameScanSameParse(s: string, t: string)
    requires ScanInt(SkipWs(s)) == ScanInt(SkipWs(t))
    ensures IsParseableAsInt(s) == IsParseableAsInt(t) && ParseAsInt(s) == ParseAsInt(t)
  {
  }

  /** The prefix recogniser accepts an int numeral followed by anything that
      does not continue it: "12abc" passes as the int 12 without being a
      numeral. */
  lemma {:induction false} PrefixAcceptsTrailingText(num: string, rest: string)
    requires CanBeParsedAsInt(num)
    requires |rest| > 0 && !IsDigit(rest[0])
    ensures IsParseableAsInt(num + rest) && ParseAsInt(num + rest) == ParseAsInt(num)
    ensures !CanBeParsedAsInt(num + rest)
  {
    var s := num + rest;
    ScanIntAppend(num, rest);
    WholeIntIsParseable(num);
    assert s[0] == num[0];
    assert SkipWs(s) == s && SkipWs(num) == num;
    SameScanSameParse(s, num);
  }



  /** An int numeral, a point and digits make a whole double numeral. */
  lemma {:induction false} FractionIsDouble(num: string, frac: string, s: string)
    requires CanBeParsedAsInt(num)
    requires forall k :: 0 <= k < |frac| ==> IsDigit(frac[k])
    requires s == num + "." + frac
    ensures CanBeParsedAsDouble(s)
  {
    var sl := SignLen(num);
    assert SignLen(s) == sl;
    var t := num[sl..];
    assert t[..0] == "";
    DigitsFromSpec(t, 0, 0);
    forall k | sl <= k < |num|
      ensures IsDigit(s[k])
    {
      assert s[k] == t[k - sl];
    }
    forall k | |num| < k < |s|
      ensures IsDigit(s[k])
    {
      assert s[k] == frac[k - |num| - 1];
    }
    ScanSignedDigits(s, |num|);
  }

  /** The prefix recogniser takes the integral part of a decimal fraction:
      "3.14" passes as the int 3, though the whole text is a double. */
  lemma {:induction false} PrefixTruncatesFraction(num: string, frac: string)
    requires CanBeParsedAsInt(num)
    requires forall k :: 0 <= k < |frac| ==> IsDigit(frac[k])
    ensures IsParseableAsInt(num + "." + frac) && ParseAsInt(num + "." + frac) == ParseAsInt(num)
    ensures !CanBeParsedAsInt(num + "." + frac) && CanBeParsedAsDouble(num + "." + frac)
  {
    assert num + "." + frac == num + ("." + frac);
    PrefixAcceptsTrailingText(num, "." + frac);
    FractionIsDouble(num, frac, num + "." + frac);
  }

  /** The double recogniser stops where an int numeral is followed by a
      character that cannot continue a numeral, so the whole text is no
      double. */
  lemma {:induction false} DoublePrefixStops(num: string, rest: string)
    requires CanBeParsedAsInt(num)
    requires |rest| > 0 && !IsDigit(rest[0]) && rest[0] != '.' && rest[0] != 'e' && rest[0] != 'E'
    ensures ScanDouble(num + rest) == DoubleScan(|num|, true)
    ensures !CanBeParsedAsDouble(num + rest)
  {
    var s := num + rest;
    var sl := SignLen(num);
    assert SignLen(s) == sl;
    var t := num[sl..];
    assert t[..0] == "";
    DigitsFromSpec(t, 0, 0);
    forall k | sl <= k < |num|
      ensures IsDigit(s[k])
    {
      assert s[k] == t[k - sl];
    }
    ScanSignedPrefix(s, |num|);
    assert s[|num|] == rest[0];
    assert Step(Whole, true, s[|num|]).None?;
  }
}
