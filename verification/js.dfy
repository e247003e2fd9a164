/** The JavaScript built-ins that the browser modules and the version bumpers
    rely on: `trim`, `length` in UTF-16 code units, `parseInt`, `Number` on
    text, the numeric-literal test behind `isNaN`, `String(value)`, and
    property lookup on plain object literals. */
module Js {
  import opened Wrappers
  import opened Text

  // ---------------------------------------------------------------------------
  // Whitespace and trim
  // ---------------------------------------------------------------------------

  /** LineTerminator code points. */
  predicate IsLineTerminator(c: char) {
    c == '\n' || c == '\r' || c == '\U{2028}' || c == '\U{2029}'
  }

  /** WhiteSpace and LineTerminator code points: what `trim` removes and what
      `\s` matches in a regular expression. */
  predicate IsSpace(c: char) {
    || c == '\t' || c == '\U{000B}' || c == '\U{000C}' || c == ' '
    || c == '\U{00A0}' || c == '\U{FEFF}' || c == '\U{1680}'
    || '\U{2000}' <= c <= '\U{200A}'
    || c == '\U{202F}' || c == '\U{205F}' || c == '\U{3000}'
    || IsLineTerminator(c)
  }

  /** `s.trim()`. */
  function Trim(s: string): string {
    StripChars(s, IsSpace)
  }

  /** `trim` leaves no whitespace at either end and keeps the middle of the
      text, from the first character that is not whitespace on. */
  lemma TrimSpec(s: string)
    ensures var r := Trim(s);
      && (r == [] || (!IsSpace(r[0]) && !IsSpace(r[|r| - 1])))
      && OccursAt(s, r, |s| - |LStrip(s, IsSpace)|)
  {
    var l := LStrip(s, IsSpace);
    var r := RStrip(l, IsSpace);
    LStripSpec(s, IsSpace);
    RStripSpec(l, IsSpace);
    assert s[|s| - |l|..|s| - |l| + |r|] == r;
  }

  /** A string with no whitespace at either end is its own trim. */
  lemma TrimOfClean(s: string)
    requires s == [] || (!IsSpace(s[0]) && !IsSpace(s[|s| - 1]))
    ensures Trim(s) == s
  {
    StripCharsOfClean(s, IsSpace);
  }

  // ---------------------------------------------------------------------------
  // Length
  // ---------------------------------------------------------------------------

  /** `s.length`: code points above U+FFFF take two UTF-16 code units. */
  function Utf16Length(s: string): (n: nat)
    ensures |s| <= n <= 2 * |s|
  {
    if |s| == 0 then 0
    else Utf16Length(s[..|s| - 1]) + (if s[|s| - 1] as int > 0xFFFF then 2 else 1)
  }

  // ---------------------------------------------------------------------------
  // Numbers read from text
  // ---------------------------------------------------------------------------

  /** A number value as far as the modelled code needs one: an integer or NaN. */
  datatype Number = NaN | Int(value: int)

  /** `String(n)` / `` `${n}` `` for a number. */
  function NumberToString(n: Number): string {
    match n
    case NaN => "NaN"
    case Int(i) => IntToString(i)
  }

  /** `n + 1` and `n++`. */
  function Increment(n: Number): Number {
    match n
    case NaN => NaN
    case Int(i) => Int(i + 1)
  }

  /** The length of the longest prefix of decimal digits. */
  function DigitPrefixLength(s: string): (n: nat)
    ensures n <= |s| && AllDigits(s[..n])
    ensures n < |s| ==> !IsDigit(s[n])
  {
    if |s| == 0 || !IsDigit(s[0]) then 0
    else
      var n := 1 + DigitPrefixLength(s[1..]);
      assert s[..n] == [s[0]] + s[1..][..n - 1];
      n
  }

  /** What `parseInt` reads digits from: the text after leading whitespace
      and one optional sign. */
  function AfterSign(s: string): string {
    var t := LStrip(s, IsSpace);
    if |t| > 0 && (t[0] == '-' || t[0] == '+') then t[1..] else t
  }

  /** `parseInt(s, 10)`: leading whitespace, an optional sign, then the
      longest run of decimal digits; NaN when there is none. */
  function ParseInt(s: string): (r: Number)
    ensures r.Int? <==> |AfterSign(s)| > 0 && IsDigit(AfterSign(s)[0])
  {
    var t := LStrip(s, IsSpace);
    var u := AfterSign(s);
    var n := DigitPrefixLength(u);
    if n == 0 then NaN
    else
      var magnitude: int := DigitsValue(u[..n]);
      Int(if |t| > 0 && t[0] == '-' then -magnitude else magnitude)
  }

  /** `parseInt` reads back a rendered integer, and ignores whatever follows
      the digits. */
  lemma ParseIntOfString(i: int, rest: string)
    requires rest == [] || !IsDigit(rest[0])
    ensures ParseInt(IntToString(i) + rest) == Int(i)
  {
    if i < 0 {
      ParseIntNegative(i, rest);
    } else {
      ParseIntNatural(i, rest);
    }
  }

  lemma ParseIntNatural(i: int, rest: string)
    requires i >= 0 && (rest == [] || !IsDigit(rest[0]))
    ensures ParseInt(IntToString(i) + rest) == Int(i)
  {
    var digits := NatToString(i);
    var u := digits + rest;
    assert IntToString(i) + rest == u;
    SignedStart(u, u);
    DigitRun(digits, rest);
    ReadDigits(u, digits);
  }

  lemma ParseIntNegative(i: int, rest: string)
    requires i < 0 && (rest == [] || !IsDigit(rest[0]))
    ensures ParseInt(IntToString(i) + rest) == Int(i)
  {
    var digits := NatToString(-i);
    var u := digits + rest;
    var s := IntToString(i) + rest;
    assert s == "-" + u;
    SignedStart(s, u);
    DigitRun(digits, rest);
    ReadDigits(s, digits);
  }

  lemma ReadDigits(s: string, digits: string)
    requires |digits| > 0 && LStrip(s, IsSpace) == s
    requires DigitPrefixLength(AfterSign(s)) == |digits| && AfterSign(s)[..|digits|] == digits
    ensures ParseInt(s) == Int(if s[0] == '-' then -(DigitsValue(digits) as int) else DigitsValue(digits))
  {
  }

  /** Text that starts with a digit, or with `-` and a digit, has no leading
      whitespace, and its digits start after the sign. */
  lemma SignedStart(s: string, u: string)
    requires |u| > 0 && IsDigit(u[0]) && (s == u || s == "-" + u)
    ensures LStrip(s, IsSpace) == s && AfterSign(s) == u
    ensures s[0] == '-' <==> s != u
  {
    assert s[0] == '-' || IsDigit(s[0]);
    assert !IsSpace(s[0]);
    if s != u {
      assert s[1..] == u;
    }
  }

  lemma DigitRun(digits: string, rest: string)
    requires AllDigits(digits)
    requires rest == [] || !IsDigit(rest[0])
    ensures DigitPrefixLength(digits + rest) == |digits|
    ensures (digits + rest)[..|digits|] == digits
  {
    DigitPrefixOf(digits, rest);
  }

  /** `parseInt` of a digit string, leading zeros included, is its value. */
  lemma ParseIntOfDigits(s: string)
    requires |s| >= 1 && AllDigits(s)
    ensures ParseInt(s) == Int(DigitsValue(s))
  {
    assert !IsSpace(s[0]);
    assert LStrip(s, IsSpace) == s;
    assert AfterSign(s) == s;
    DigitPrefixOf(s, []);
    assert s + [] == s;
    assert s[..|s|] == s;
  }

  lemma {:induction false} DigitPrefixOf(digits: string, rest: string)
    requires AllDigits(digits)
    requires rest == [] || !IsDigit(rest[0])
    ensures DigitPrefixLength(digits + rest) == |digits|
    decreases |digits|
  {
    if |digits| > 0 {
      assert (digits + rest)[1..] == digits[1..] + rest;
      DigitPrefixOf(digits[1..], rest);
    } else {
      assert digits + rest == rest;
    }
  }

  /** `Number(s)` for text, as far as integers go: surrounding whitespace
      is ignored, empty text is 0, an optional sign followed by decimal
      digits is that integer, and `0x`, `0o` or `0b` followed by digits of
      that base (no sign) is their value. Every other text is NaN here;
      decimal fractions, exponents and `Infinity`, which JavaScript reads
      as numbers, are among them. */
  function ToNumber(s: string): (r: Number)
    ensures Trim(s) == [] ==> r == Int(0)
    ensures r.Int? && Trim(s) != [] ==>
      IsNonDecimalIntegerLiteral(Trim(s)) || (AllDigits(Trim(s)[1..]) && (IsDigit(Trim(s)[0]) || Trim(s)[0] in "+-"))
    ensures IsNonDecimalIntegerLiteral(Trim(s)) ==> r.Int? && r.value >= 0
  {
    var t := Trim(s);
    if |t| == 0 then Int(0)
    else if |t| >= 2 && (t[0] == '-' || t[0] == '+') && AllDigits(t[1..]) then
      var magnitude: int := DigitsValue(t[1..]);
      Int(if t[0] == '-' then -magnitude else magnitude)
    else if AllDigits(t) then
      Int(DigitsValue(t))
    else if IsNonDecimalIntegerLiteral(t) then
      Int(RadixValue(t[2..], RadixOf(t[1])))
    else
      NaN
  }

  /** The base a `0x`, `0o` or `0b` prefix names. */
  function RadixOf(c: char): nat {
    if c == 'x' || c == 'X' then 16 else if c == 'o' || c == 'O' then 8 else 2
  }

  function HexDigitValue(c: char): nat
    requires IsHexDigit(c)
  {
    if IsDigit(c) then c as int - '0' as int
    else if 'a' <= c <= 'f' then c as int - 'a' as int + 10
    else c as int - 'A' as int + 10
  }

  /** The value of a digit string in the given base, most significant digit first. */
  function RadixValue(s: string, base: nat): nat
    requires forall i :: 0 <= i < |s| ==> IsHexDigit(s[i])
    decreases |s|
  {
    if |s| == 0 then 0
    else RadixValue(s[..|s| - 1], base) * base + HexDigitValue(s[|s| - 1])
  }

  /** `Number("0x10")` is 16. */
  lemma HexExample()
    ensures ToNumber("0x10") == Int(16)
  {
    var hex, one, ten := "0x10", "1", "10";
    TrimOfClean(hex);
    assert !AllDigits(hex) by { assert !IsDigit(hex[1]); }
    assert IsNonDecimalIntegerLiteral(hex);
    assert one[..0] == [] && ten[..1] == one && hex[2..] == ten;
    assert RadixValue(one, 16) == 1;
    assert RadixValue(ten, 16) == 16;
  }

  /** `Number("0b11")` is 3. */
  lemma BinaryExample()
    ensures ToNumber("0b11") == Int(3)
  {
    var bin, one, eleven := "0b11", "1", "11";
    TrimOfClean(bin);
    assert !AllDigits(bin) by { assert !IsDigit(bin[1]); }
    assert IsNonDecimalIntegerLiteral(bin);
    assert one[..0] == [] && eleven[..1] == one && bin[2..] == eleven;
    assert RadixValue(one, 2) == 1;
    assert RadixValue(eleven, 2) == 3;
  }

  /** A sign before a `0x` prefix makes the text NaN. */
  lemma SignedHexExample()
    ensures ToNumber("-0x10") == NaN
  {
    var t := "-0x10";
    TrimOfClean(t);
    assert !AllDigits(t) by { assert !IsDigit(t[0]); }
    assert !AllDigits(t[1..]) by { assert !IsDigit(t[1..][1]); }
    assert !IsNonDecimalIntegerLiteral(t) by { assert t[0] != '0'; }
  }

  /** `Number` reads back a rendered integer. */
  lemma ToNumberOfString(i: int)
    ensures ToNumber(IntToString(i)) == Int(i)
  {
    var r := IntToString(i);
    TrimOfClean(r);
    if i < 0 {
      assert r[1..] == NatToString(-i);
    }
  }

  /** A digit string read by `Number` is its decimal value. */
  lemma ToNumberOfDigits(s: string)
    requires |s| >= 1 && AllDigits(s)
    ensures ToNumber(s) == Int(DigitsValue(s))
  {
    assert IsDigit(s[0]) && IsDigit(s[|s| - 1]);
    TrimOfClean(s);
  }

  // ---------------------------------------------------------------------------
  // The StringNumericLiteral grammar (what `isNaN(text)` rejects)
  // ---------------------------------------------------------------------------

  predicate IsHexDigit(c: char) {
    IsDigit(c) || 'a' <= c <= 'f' || 'A' <= c <= 'F'
  }

  /** `e` or `E`, an optional sign, and at least one digit. */
  predicate IsExponentPart(s: string) {
    |s| >= 2 && (s[0] == 'e' || s[0] == 'E') &&
    var d := if s[1] == '+' || s[1] == '-' then s[2..] else s[1..];
    |d| >= 1 && AllDigits(d)
  }

  /** Digits with an optional fraction, or a fraction alone, then an
      optional exponent; or `Infinity`. */
  predicate IsUnsignedDecimalLiteral(s: string) {
    || s == "Infinity"
    || exists m :: 0 <= m <= |s| && IsMantissa(s[..m]) && (m == |s| || IsExponentPart(s[m..]))
  }

  predicate IsMantissa(s: string) {
    var n := DigitPrefixLength(s);
    if n == |s| then n >= 1
    else s[n] == '.' && AllDigits(s[n + 1..]) && (n >= 1 || |s| > n + 1)
  }

  /** `0x…`, `0o…` or `0b…` with at least one digit of that base. */
  predicate IsNonDecimalIntegerLiteral(s: string) {
    |s| >= 3 && s[0] == '0' &&
    (|| ((s[1] == 'x' || s[1] == 'X') && forall i :: 2 <= i < |s| ==> IsHexDigit(s[i]))
     || ((s[1] == 'o' || s[1] == 'O') && forall i :: 2 <= i < |s| ==> '0' <= s[i] <= '7')
     || ((s[1] == 'b' || s[1] == 'B') && forall i :: 2 <= i < |s| ==> s[i] == '0' || s[i] == '1'))
  }

  /** The text, once trimmed, is empty or a StringNumericLiteral, so that
      `Number(text)` is not NaN. */
  predicate IsNumericText(s: string) {
    var t := Trim(s);
    || t == []
    || IsNonDecimalIntegerLiteral(t)
    || IsUnsignedDecimalLiteral(t)
    || (|t| >= 1 && (t[0] == '+' || t[0] == '-') && IsUnsignedDecimalLiteral(t[1..]))
  }

  /** Every text `ToNumber` reads as an integer is numeric text. */
  lemma ToNumberNumeric(s: string)
    requires ToNumber(s).Int?
    ensures IsNumericText(s)
  {
    var t := Trim(s);
    if t != [] && !IsNonDecimalIntegerLiteral(t) {
      var u := if t[0] == '+' || t[0] == '-' then t[1..] else t;
      assert |u| >= 1 && AllDigits(u);
      DigitPrefixOf(u, []);
      assert u + [] == u;
      assert u[..|u|] == u;
      assert IsMantissa(u[..|u|]);
    }
  }

  // ---------------------------------------------------------------------------
  // Values
  // ---------------------------------------------------------------------------

  /** A JavaScript value as the routing and formatting code sees it. An
      object carries the text `String(o)` gives and the text
      `JSON.stringify(o)` gives. */
  datatype Value =
    | Undefined
    | Null
    | Bool(b: bool)
    | Num(n: int)
    | Str(s: string)
    | Obj(text: string, json: string)

  /** `typeof v`. */
  function TypeOf(v: Value): string {
    match v
    case Undefined => "undefined"
    case Null => "object"
    case Bool(_) => "boolean"
    case Num(_) => "number"
    case Str(_) => "string"
    case Obj(_, _) => "object"
  }

  /** `String(v)`. */
  function ToStr(v: Value): string {
    match v
    case Undefined => "undefined"
    case Null => "null"
    case Bool(b) => if b then "true" else "false"
    case Num(n) => IntToString(n)
    case Str(s) => s
    case Obj(text, _) => text
  }

  /** Truthiness of a string: only the empty string is falsy. */
  predicate Truthy(s: string) {
    s != []
  }

  /** The properties every plain object literal inherits from
      `Object.prototype`; looking one of them up on a literal used as a
      dictionary finds a function or an object instead of an entry. */
  const PrototypeKeys: set<string> := {
    "constructor", "__proto__", "__defineGetter__", "__defineSetter__",
    "__lookupGetter__", "__lookupSetter__", "hasOwnProperty", "isPrototypeOf",
    "propertyIsEnumerable", "toString", "toLocaleString", "valueOf"
  }

  /** The one inherited property whose assignment on a plain object runs
      the inherited setter instead of creating an own entry; the other
      inherited names are writable and become own entries. */
  const ProtoSetter: string := "__proto__"

  /** `String(o[key])` for an inherited property of a plain object: the
      prototype itself prints as `[object Object]`, a built-in method as its
      native-code source text (the constructor under the name `Object`). */
  function InheritedText(key: string): string
    requires key in PrototypeKeys
  {
    if key == "__proto__" then "[object Object]"
    else "function " + (if key == "constructor" then "Object" else key) + "() { [native code] }"
  }

  // ---------------------------------------------------------------------------
  // ASCII case-insensitive search (the `/i` flag and `toLowerCase` on ASCII)
  // ---------------------------------------------------------------------------

  /** `p` occurs at `i` in `s` ignoring ASCII case. */
  predicate OccursAtIgnoringCase(s: string, p: string, i: int) {
    0 <= i && i + |p| <= |s| && Lower(s[i..i + |p|]) == Lower(p)
  }

  /** `s.toLowerCase().includes(p)` for a lower-case ASCII `p`. */
  predicate ContainsIgnoringCase(s: string, p: string) {
    Contains(Lower(s), Lower(p))
  }

  lemma ContainsIgnoringCaseIff(s: string, p: string)
    ensures ContainsIgnoringCase(s, p) <==> exists i :: OccursAtIgnoringCase(s, p, i)
  {
    ContainsIff(Lower(s), Lower(p));
    if ContainsIgnoringCase(s, p) {
      var j :| OccursAt(Lower(s), Lower(p), j);
      assert Lower(s)[j..j + |p|] == Lower(s[j..j + |p|]);
      assert OccursAtIgnoringCase(s, p, j);
    }
    if exists i :: OccursAtIgnoringCase(s, p, i) {
      var i :| OccursAtIgnoringCase(s, p, i);
      assert Lower(s)[i..i + |p|] == Lower(s[i..i + |p|]);
      assert OccursAt(Lower(s), Lower(p), i);
    }
  }

  /** `/^p/i.test(s)`. */
  predicate StartsWithIgnoringCase(s: string, p: string) {
    |p| <= |s| && Lower(s[..|p|]) == Lower(p)
  }

  // ---------------------------------------------------------------------------
  // Arrays
  // ---------------------------------------------------------------------------

  /** `xs.indexOf(x)`: the first index holding `x`, or -1. */
  function IndexOf<T(==)>(xs: seq<T>, x: T): (r: int)
    ensures -1 <= r < |xs|
    ensures r == -1 <==> x !in xs
    ensures r >= 0 ==> xs[r] == x && forall j :: 0 <= j < r ==> xs[j] != x
  {
    if |xs| == 0 then -1
    else if xs[0] == x then 0
    else
      var k := IndexOf(xs[1..], x);
      if k == -1 then -1 else k + 1
  }
}
