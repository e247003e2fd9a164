/** The few pieces of Python's `str` and `int` that the archiver scripts use:
    whitespace stripping, stripping a character set, `int()` on text,
    `str.title()`, zero-padded formatting and list comparison. */
module PyStr {
  import opened Wrappers
  import opened Text

  /** The characters for which `str.isspace()` holds. */
  predicate IsSpace(c: char) {
    || '\t' <= c <= '\r'
    || '\U{001C}' <= c <= ' '
    || c == '\U{0085}' || c == '\U{00A0}' || c == '\U{1680}'
    || '\U{2000}' <= c <= '\U{200A}'
    || c == '\U{2028}' || c == '\U{2029}' || c == '\U{202F}' || c == '\U{205F}' || c == '\U{3000}'
  }

  /** `s.strip()`. */
  function Strip(s: string): string {
    StripChars(s, IsSpace)
  }

  /** `int(s)` for text: optional surrounding whitespace, an optional sign and
      at least one ASCII digit; anything else raises, here `None`. */
  function ParseInt(s: string): (r: Option<int>)
    ensures r.Some? ==> |Strip(s)| >= 1
  {
    var t := Strip(s);
    if |t| >= 2 && (t[0] == '-' || t[0] == '+') && AllDigits(t[1..]) then
      var magnitude: int := DigitsValue(t[1..]);
      Some(if t[0] == '-' then -magnitude else magnitude)
    else if |t| >= 1 && AllDigits(t) then
      Some(DigitsValue(t))
    else
      None
  }

  /** `int()` reads back what `str()` wrote. */
  lemma ParseIntOfString(n: int)
    ensures ParseInt(IntToString(n)) == Some(n)
  {
    var r := IntToString(n);
    StripCharsOfClean(r, IsSpace);
    if n < 0 {
      assert r[1..] == NatToString(-n);
    }
  }

  /** Python's `f"{n:0{width}}"`: sign-aware zero padding to `width` characters. */
  function ZeroPad(n: int, width: nat): (r: string)
    ensures n >= 0 ==> r == PadStart(NatToString(n), width, '0')
    ensures n < 0 ==> r == "-" + PadStart(NatToString(-n), if width > 0 then width - 1 else 0, '0')
  {
    if n < 0 then "-" + PadStart(NatToString(-n), if width > 0 then width - 1 else 0, '0')
    else PadStart(NatToString(n), width, '0')
  }

  /** `int()` of a plain digit string is its decimal value. */
  lemma ParseIntOfDigits(t: string)
    requires |t| >= 1 && AllDigits(t)
    ensures ParseInt(t) == Some(DigitsValue(t))
  {
    assert IsDigit(t[0]) && IsDigit(t[|t| - 1]);
    StripCharsOfClean(t, IsSpace);
  }

  /** `int()` reads a zero-padded non-negative number back. */
  lemma ParseIntOfZeroPad(n: nat, width: nat)
    ensures ParseInt(ZeroPad(n, width)) == Some(n)
  {
    ZeroPaddedValue(NatToString(n), width);
    ParseIntOfDigits(PadStart(NatToString(n), width, '0'));
  }

  /** Leading zeros do not change the value of a digit string. */
  lemma {:induction false} ZeroPaddedValue(digits: string, width: nat)
    requires AllDigits(digits)
    ensures AllDigits(PadStart(digits, width, '0'))
    ensures DigitsValue(PadStart(digits, width, '0')) == DigitsValue(digits)
    decreases width
  {
    if |digits| < width {
      var r := PadStart(digits, width, '0');
      var shorter := PadStart(digits, width - 1, '0');
      assert r == "0" + shorter;
      ZeroPaddedValue(digits, width - 1);
      LeadingZeroValue(shorter);
    }
  }

  /** One leading zero does not change the value of a digit string. */
  lemma {:induction false} LeadingZeroValue(s: string)
    requires AllDigits(s)
    ensures AllDigits("0" + s) && DigitsValue("0" + s) == DigitsValue(s)
    decreases |s|
  {
    var z := "0" + s;
    if |s| > 0 {
      assert z[..|z| - 1] == "0" + s[..|s| - 1];
      LeadingZeroValue(s[..|s| - 1]);
    } else {
      assert z[..0] == [];
    }
  }

  // ---------------------------------------------------------------------------
  // str.title()
  // ---------------------------------------------------------------------------

  /** Letters that `str.title()` treats as cased (ASCII letters in this model). */
  predicate IsCased(c: char) {
    IsAsciiLetter(c)
  }

  function TitleFrom(s: string, previousCased: bool): (r: string)
    ensures |r| == |s|
    decreases |s|
  {
    if |s| == 0 then ""
    else
      [if previousCased then LowerChar(s[0]) else UpperChar(s[0])] + TitleFrom(s[1..], IsCased(s[0]))
  }

  /** `s.title()`: the first cased letter of every run of cased letters is
      upper-cased and the rest lower-cased; other characters are kept. */
  function Title(s: string): (r: string)
    ensures |r| == |s|
  {
    TitleFrom(s, false)
  }

  /** Characterisation of `Title` position by position. */
  lemma {:induction false} TitleAt(s: string, previousCased: bool, i: nat)
    requires i < |s|
    ensures |TitleFrom(s, previousCased)| == |s|
    ensures TitleFrom(s, previousCased)[i] ==
      var before := if i == 0 then previousCased else IsCased(s[i - 1]);
      if before then LowerChar(s[i]) else UpperChar(s[i])
    decreases i
  {
    if i > 0 {
      TitleAt(s[1..], IsCased(s[0]), i - 1);
    }
  }

  // ---------------------------------------------------------------------------
  // List comparison
  // ---------------------------------------------------------------------------

  /** Python's `a <= b` on lists of integers: lexicographic, a proper prefix
      being smaller. */
  predicate ListLessEq(a: seq<int>, b: seq<int>)
    decreases |a|
  {
    if |a| == 0 then true
    else if |b| == 0 then false
    else if a[0] != b[0] then a[0] < b[0]
    else ListLessEq(a[1..], b[1..])
  }

  /** Python's `a < b` on lists of integers. */
  predicate ListLess(a: seq<int>, b: seq<int>)
    decreases |b|
  {
    if |b| == 0 then false
    else if |a| == 0 then true
    else if a[0] != b[0] then a[0] < b[0]
    else ListLess(a[1..], b[1..])
  }

  /** `a <= b` is exactly `not (b < a)`: list order is total. */
  lemma {:induction false} ListLessEqIff(a: seq<int>, b: seq<int>)
    ensures ListLessEq(a, b) <==> !ListLess(b, a)
    decreases |a|
  {
    if |a| > 0 && |b| > 0 && a[0] == b[0] {
      ListLessEqIff(a[1..], b[1..]);
    }
  }
}
