// The Python text operations the monitor scripts rely on: str.split's first
// field, int() on a decimal string and the truncating slice. Whitespace is
// the ASCII part of Python's set; non-ASCII digits and spaces are left out.
module PyText {
  import opened Wrappers
  import opened CText

  /** Python's ASCII whitespace: isspace() plus the four separator controls 0x1c-0x1f. */
  predicate PyIsSpace(c: char)
  {
    IsSpace(c) || (0x1c <= c as int <= 0x1f)
  }

  /** `s.split(sep)[0]`: everything before the first `sep`, or all of `s`. */
  function FirstField(s: string, sep: char): (r: string)
    ensures |r| <= |s| && r == s[..|r|]
    ensures sep !in r
    ensures |r| < |s| ==> s[|r|] == sep
  {
    if s == [] || s[0] == sep then [] else [s[0]] + FirstField(s[1..], sep)
  }

  /** A field that holds no separator is returned whole, and the rest of the string is ignored. */
  lemma {:induction false} FirstFieldOf(a: string, sep: char, b: string)
    requires sep !in a
    ensures FirstField(a + [sep] + b, sep) == a
  {
    if a != [] {
      assert (a + [sep] + b)[1..] == a[1..] + [sep] + b;
      FirstFieldOf(a[1..], sep, b);
    } else {
      assert (a + [sep] + b)[0] == sep;
    }
  }

  function StripLeft(s: string): (r: string)
    ensures |r| <= |s| && r == s[|s| - |r|..]
    ensures r == [] || !PyIsSpace(r[0])
  {
    if s != [] && PyIsSpace(s[0]) then StripLeft(s[1..]) else s
  }

  function StripRight(s: string): (r: string)
    ensures |r| <= |s| && r == s[..|r|]
    ensures r == [] || !PyIsSpace(r[|r| - 1])
  {
    if s != [] && PyIsSpace(s[|s| - 1]) then StripRight(s[..|s| - 1]) else s
  }

  /** Digits, optionally grouped by single underscores between digits, as int() accepts them. */
  predicate Grouped(s: string)
  {
    |s| > 0 && IsDigit(s[0]) && IsDigit(s[|s| - 1]) &&
    (forall i :: 0 <= i < |s| ==> IsDigit(s[i]) || s[i] == '_') &&
    (forall i :: 0 <= i < |s| - 1 ==> s[i] == '_' ==> s[i + 1] != '_')
  }

  /** The digits of a grouped number, underscores dropped. */
  function DigitsOf(s: string): (r: string)
    ensures forall i :: 0 <= i < |r| ==> IsDigit(r[i])
  {
    if s == [] then []
    else DigitsOf(s[..|s| - 1]) + (if IsDigit(s[|s| - 1]) then [s[|s| - 1]] else [])
  }

  /**
   * `int(s)`: surrounding whitespace, an optional sign, then grouped digits;
   * anything else raises ValueError (None).
   */
  function PyInt(s: string): (r: Option<int>)
  {
    var t := StripRight(StripLeft(s));
    if t != [] && (t[0] == '-' || t[0] == '+') then
      if Grouped(t[1..]) then
        var v: int := DecimalValue(DigitsOf(t[1..]));
        Some(if t[0] == '-' then -v else v)
      else None
    else if Grouped(t) then Some(DecimalValue(DigitsOf(t)))
    else None
  }

  lemma {:induction false} DigitsOfDigits(s: string)
    requires forall i :: 0 <= i < |s| ==> IsDigit(s[i])
    ensures DigitsOf(s) == s
  {
    if s != [] {
      DigitsOfDigits(s[..|s| - 1]);
    }
  }

  lemma StripDigits(s: string)
    requires s != [] && forall i :: 0 <= i < |s| ==> IsDigit(s[i])
    ensures StripLeft(s) == s && StripRight(s) == s
  {
    assert IsDigit(s[0]) && IsDigit(s[|s| - 1]);
    assert !PyIsSpace(s[0]) && !PyIsSpace(s[|s| - 1]);
  }

  /** str() of a natural number is a grouped number whose digits read back as it. */
  lemma DecimalGrouped(m: nat)
    ensures Grouped(NatToDecimal(m)) && DigitsOf(NatToDecimal(m)) == NatToDecimal(m)
    ensures DecimalValue(NatToDecimal(m)) == m
  {
    var d := NatToDecimal(m);
    assert IsDigit(d[0]) && IsDigit(d[|d| - 1]);
    DigitsOfDigits(d);
    DecimalValueOfNat(m);
  }

  lemma PyIntOfNat(m: nat)
    ensures PyInt(NatToDecimal(m)) == Some(m)
  {
    var d := NatToDecimal(m);
    StripDigits(d);
    assert d[0] != '-' && d[0] != '+';
    DecimalGrouped(m);
  }

  /** A minus sign in front of digits is not stripped. */
  lemma StripSigned(s: string)
    requires |s| > 1 && s[0] == '-' && forall i :: 1 <= i < |s| ==> IsDigit(s[i])
    ensures StripRight(StripLeft(s)) == s
  {
    assert IsDigit(s[|s| - 1]);
    StripNone(s);
  }

  /** Strip leaves a string that starts and ends with a non-space as it is. */
  lemma StripNone(s: string)
    requires s != [] && !PyIsSpace(s[0]) && !PyIsSpace(s[|s| - 1])
    ensures StripLeft(s) == s && StripRight(s) == s
  {
  }

  lemma PyIntOfNegative(m: nat)
    ensures PyInt("-" + NatToDecimal(m)) == Some(0 - m as int)
  {
    var d := NatToDecimal(m);
    var s := "-" + d;
    assert forall i :: 1 <= i < |s| ==> s[i] == d[i - 1];
    StripSigned(s);
    DecimalGrouped(m);
    PyIntOfSigned(s, d, m);
  }

  lemma PyIntOfSigned(s: string, d: string, v: nat)
    requires StripRight(StripLeft(s)) == s && s == "-" + d
    requires Grouped(d) && DigitsOf(d) == d && DecimalValue(d) == v
    ensures PyInt(s) == Some(0 - v as int)
  {
    assert s[0] == '-' && s[1..] == d;
  }

  /** int() reads back exactly what str() prints for an integer. */
  lemma PyIntOfDecimal(n: int)
    ensures PyInt(IntToDecimal(n)) == Some(n)
  {
    if n < 0 {
      PyIntOfNegative(-n);
    } else {
      PyIntOfNat(n);
    }
  }

  /** A string with a character that is neither a digit, '_', a sign nor a space is not a number. */
  lemma PyIntRejects(s: string, i: nat)
    requires i < |s| && !IsDigit(s[i]) && s[i] != '_' && s[i] != '-' && s[i] != '+' && !PyIsSpace(s[i])
    ensures PyInt(s) == None
  {
    var l := StripLeft(s);
    StripLeftKeeps(s, i);
    var k := i - (|s| - |l|);
    assert l[k] == s[i];
    StripRightKeeps(l, k);
    var t := StripRight(l);
    assert t[k] == s[i];
    if t != [] && (t[0] == '-' || t[0] == '+') {
      assert t[1..][k - 1] == t[k];
    }
  }

  /** A character that is not a space survives StripLeft. */
  lemma {:induction false} StripLeftKeeps(s: string, i: nat)
    requires i < |s| && !PyIsSpace(s[i])
    ensures |s| - |StripLeft(s)| <= i
  {
    if s != [] && PyIsSpace(s[0]) {
      StripLeftKeeps(s[1..], i - 1);
    }
  }

  /** A character that is not a space survives StripRight. */
  lemma {:induction false} StripRightKeeps(s: string, i: nat)
    requires i < |s| && !PyIsSpace(s[i])
    ensures i < |StripRight(s)|
  {
    if s != [] && PyIsSpace(s[|s| - 1]) {
      StripRightKeeps(s[..|s| - 1], i);
    }
  }

  /** `s[:n]` */
  function Prefix(s: string, n: nat): (r: string)
    ensures |r| == if |s| < n then |s| else n
    ensures r == s[..|r|]
  {
    if |s| <= n then s else s[..n]
  }
}
