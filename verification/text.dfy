/** String operations that Python's `str` and JavaScript's `String` share:
    decimal digits and their rendering, searching for a substring, splitting on
    and joining with a separator, padding, and replacing characters. */
module Text {

  // ---------------------------------------------------------------------------
  // Decimal digits
  // ---------------------------------------------------------------------------

  predicate IsDigit(c: char) {
    '0' <= c <= '9'
  }

  predicate AllDigits(s: string) {
    forall i :: 0 <= i < |s| ==> IsDigit(s[i])
  }

  function DigitValue(c: char): nat
    requires IsDigit(c)
  {
    c as int - '0' as int
  }

  function DigitChar(d: nat): char
    requires d < 10
  {
    ('0' as int + d) as char
  }

  /** The value of a string of decimal digits, most significant digit first;
      leading zeros are allowed, as `int("007")` and `Number("007")` allow them. */
  function DigitsValue(s: string): nat
    requires AllDigits(s)
  {
    if |s| == 0 then 0 else DigitsValue(s[..|s| - 1]) * 10 + DigitValue(s[|s| - 1])
  }

  /** A non-empty digit string without a superfluous leading zero. */
  predicate Canonical(s: string) {
    |s| >= 1 && AllDigits(s) && (|s| > 1 ==> s[0] != '0')
  }

  /** The decimal rendering of a natural number, as Python's `str` and
      JavaScript's `String` produce it. */
  function NatToString(n: nat): (r: string)
    ensures Canonical(r)
    ensures DigitsValue(r) == n
    decreases n
  {
    if n < 10 then
      [DigitChar(n)]
    else
      var front := NatToString(n / 10);
      var r := front + [DigitChar(n % 10)];
      assert r[..|r| - 1] == front;
      assert |front| == 1 ==> DigitsValue(front) == DigitValue(front[0]) by {
        if |front| == 1 {
          assert front[..0] == [];
        }
      }
      r
  }

  /** A digit string whose first digit is not zero has a positive value. */
  lemma {:induction false} LeadingDigitBound(s: string)
    requires |s| >= 1 && AllDigits(s) && s[0] != '0'
    ensures DigitsValue(s) >= 1
    decreases |s|
  {
    if |s| > 1 {
      LeadingDigitBound(s[..|s| - 1]);
    } else {
      assert s[..0] == [];
    }
  }

  /** Rendering the value of a canonical digit string gives the string back. */
  lemma {:induction false} NatToStringOfDigits(s: string)
    requires Canonical(s)
    ensures NatToString(DigitsValue(s)) == s
    decreases |s|
  {
    var v := DigitsValue(s);
    if |s| == 1 {
      assert s[..0] == [];
      assert DigitsValue(s) == DigitsValue(s[..0]) * 10 + DigitValue(s[0]);
    } else {
      var front := s[..|s| - 1];
      assert front[0] == s[0];
      LeadingDigitBound(front);
      NatToStringOfDigits(front);
      assert v / 10 == DigitsValue(front) && v % 10 == DigitValue(s[|s| - 1]);
      assert s == front + [s[|s| - 1]];
    }
  }

  /** Two canonical digit strings with the same value are equal. */
  lemma CanonicalUnique(s: string, t: string)
    requires Canonical(s) && Canonical(t) && DigitsValue(s) == DigitsValue(t)
    ensures s == t
  {
    NatToStringOfDigits(s);
    NatToStringOfDigits(t);
  }

  /** Python's and JavaScript's decimal rendering of an integer. */
  function IntToString(i: int): (r: string)
    ensures |r| >= 1
    ensures i >= 0 ==> r == NatToString(i)
    ensures i < 0 ==> r == "-" + NatToString(-i)
  {
    if i < 0 then "-" + NatToString(-i) else NatToString(i)
  }

  // ---------------------------------------------------------------------------
  // Prefixes, occurrences, search
  // ---------------------------------------------------------------------------

  predicate StartsWith(s: string, p: string) {
    |p| <= |s| && s[..|p|] == p
  }

  predicate EndsWith(s: string, p: string) {
    |p| <= |s| && s[|s| - |p|..] == p
  }

  /** `p` occurs in `s` starting at index `i`. */
  predicate OccursAt(s: string, p: string, i: int) {
    0 <= i && i + |p| <= |s| && s[i..i + |p|] == p
  }

  /** The first index at or after `from` where `p` occurs in `s`, or -1
      (`str.find` / `String.prototype.indexOf`). */
  function Find(s: string, p: string, from: nat): (r: int)
    ensures r == -1 || (from <= r && OccursAt(s, p, r))
    ensures r == -1 ==> forall j :: from <= j ==> !OccursAt(s, p, j)
    ensures r >= 0 ==> forall j :: from <= j < r ==> !OccursAt(s, p, j)
    decreases |s| - from
  {
    if from + |p| > |s| then -1
    else if s[from..from + |p|] == p then from
    else Find(s, p, from + 1)
  }

  /** `p` is a substring of `s` (`p in s`, `s.includes(p)`). */
  predicate Contains(s: string, p: string) {
    Find(s, p, 0) >= 0
  }

  lemma ContainsIff(s: string, p: string)
    ensures Contains(s, p) <==> exists j :: OccursAt(s, p, j)
  {
    if Find(s, p, 0) >= 0 {
      assert OccursAt(s, p, Find(s, p, 0));
    }
  }

  /** The search returns exactly the first occurrence. */
  lemma FindFirst(s: string, p: string, from: nat, k: nat)
    requires from <= k && OccursAt(s, p, k)
    requires forall j :: from <= j < k ==> !OccursAt(s, p, j)
    ensures Find(s, p, from) == k
  {
  }

  /** A pattern one of whose characters never appears in `s` does not occur in `s`. */
  lemma AbsentChar(s: string, p: string, k: nat)
    requires k < |p| && forall i :: 0 <= i < |s| ==> s[i] != p[k]
    ensures !Contains(s, p)
  {
    forall j | 0 <= j && j + |p| <= |s| ensures !OccursAt(s, p, j) {
      assert s[j..j + |p|][k] == s[j + k];
    }
    ContainsIff(s, p);
  }

  /** A pattern absent from a string is absent from every suffix of it. */
  lemma SuffixAbsent(s: string, r: string, p: string)
    requires EndsWith(s, r) && !Contains(s, p)
    ensures !Contains(r, p)
  {
    var d := |s| - |r|;
    ContainsIff(s, p);
    forall j | 0 <= j && j + |p| <= |r| ensures !OccursAt(r, p, j) {
      assert r[j..j + |p|] == s[d + j..d + j + |p|];
      assert !OccursAt(s, p, d + j);
    }
    ContainsIff(r, p);
  }

  /** A pattern absent from a string is absent from every prefix of it. */
  lemma PrefixAbsent(s: string, r: string, p: string)
    requires StartsWith(s, r) && !Contains(s, p)
    ensures !Contains(r, p)
  {
    ContainsIff(s, p);
    forall j | 0 <= j && j + |p| <= |r| ensures !OccursAt(r, p, j) {
      assert r[j..j + |p|] == s[j..j + |p|];
      assert !OccursAt(s, p, j);
    }
    ContainsIff(r, p);
  }

  // ---------------------------------------------------------------------------
  // Split and join on a non-empty separator
  // ---------------------------------------------------------------------------

  /** `s.split(sep)` in Python and JavaScript for a non-empty separator: the
      pieces between the non-overlapping occurrences found from the left. */
  function Split(s: string, sep: string): (r: seq<string>)
    requires |sep| > 0
    ensures |r| >= 1
    decreases |s|
  {
    var k := Find(s, sep, 0);
    if k < 0 then [s] else [s[..k]] + Split(s[k + |sep|..], sep)
  }

  /** A split with a separator in the text: the piece before it, then the
      split of the rest. */
  lemma SplitStep(s: string, sep: string)
    requires |sep| > 0 && Find(s, sep, 0) >= 0
    ensures var k := Find(s, sep, 0); Split(s, sep) == [s[..k]] + Split(s[k + |sep|..], sep)
  {
  }

  /** `sep.join(parts)` / `parts.join(sep)`. */
  function Join(parts: seq<string>, sep: string): string
  {
    if |parts| == 0 then ""
    else if |parts| == 1 then parts[0]
    else parts[0] + sep + Join(parts[1..], sep)
  }

  /** Joining the pieces of a split gives back the string. */
  lemma {:induction false} JoinSplit(s: string, sep: string)
    requires |sep| > 0
    ensures Join(Split(s, sep), sep) == s
    decreases |s|
  {
    var k := Find(s, sep, 0);
    if k >= 0 {
      var rest := s[k + |sep|..];
      var tail := Split(rest, sep);
      var parts := [s[..k]] + tail;
      SplitStep(s, sep);
      assert parts[1..] == tail;
      JoinSplit(rest, sep);
      assert Join(parts, sep) == s[..k] + sep + Join(tail, sep);
      assert s == s[..k] + sep + rest;
    }
  }

  /** No piece of a split contains the separator. */
  lemma {:induction false} SplitPartsAbsent(s: string, sep: string)
    requires |sep| > 0
    ensures forall i :: 0 <= i < |Split(s, sep)| ==> !Contains(Split(s, sep)[i], sep)
    decreases |s|
  {
    var k := Find(s, sep, 0);
    if k >= 0 {
      var head := s[..k];
      HeadAbsent(s, sep, k);
      var rest := s[k + |sep|..];
      SplitPartsAbsent(rest, sep);
      SplitStep(s, sep);
    }
  }

  /** The text before the first separator does not contain it. */
  lemma HeadAbsent(s: string, sep: string, k: int)
    requires |sep| > 0 && k == Find(s, sep, 0) && k >= 0
    ensures !Contains(s[..k], sep)
  {
    var head := s[..k];
    forall j | 0 <= j && j + |sep| <= k ensures !OccursAt(head, sep, j) {
      assert head[j..j + |sep|] == s[j..j + |sep|];
      assert !OccursAt(s, sep, j);
    }
    ContainsIff(head, sep);
  }

  /** A character that does not appear in `s` appears in no piece of its split. */
  lemma {:induction false} SplitPartsWithout(s: string, sep: string, c: char)
    requires |sep| > 0 && c !in s
    ensures forall i :: 0 <= i < |Split(s, sep)| ==> c !in Split(s, sep)[i]
    decreases |s|
  {
    var k := Find(s, sep, 0);
    if k >= 0 {
      var rest := s[k + |sep|..];
      SplitPartsWithout(rest, sep, c);
      SplitStep(s, sep);
    }
  }

  /** No occurrence of `sep` can start inside `p` and run past its end into
      `p + sep + r`, nor start inside that `sep` and run into `r`: trivially so
      for a one-character separator, and when the characters on both sides of
      the separator are not characters of the separator. */
  predicate CleanBoundary(p: string, sep: string, r: string) {
    |sep| == 1 || (|p| > 0 && p[|p| - 1] !in sep && (r == [] || r[0] !in sep))
  }

  /** In `p + sep + r` the first separator is the one after `p`. */
  lemma {:induction false} FindAfterPart(p: string, sep: string, r: string)
    requires |sep| > 0 && !Contains(p, sep) && CleanBoundary(p, sep, r)
    ensures Find(p + sep + r, sep, 0) == |p|
  {
    var s := p + sep + r;
    assert OccursAt(s, sep, |p|) by {
      assert s[|p|..|p| + |sep|] == sep;
    }
    ContainsIff(p, sep);
    forall j | 0 <= j < |p|
      ensures !OccursAt(s, sep, j)
    {
      if j + |sep| <= |p| {
        assert s[j..j + |sep|] == p[j..j + |sep|];
        assert !OccursAt(p, sep, j);
      } else if |sep| > 1 && j + |sep| <= |s| {
        assert sep[|p| - 1 - j] in sep;
        assert s[j..j + |sep|][|p| - 1 - j] == p[|p| - 1];
      }
    }
    FindFirst(s, sep, 0, |p|);
  }

  /** The pieces can be recovered from their join: no piece contains the
      separator, and every boundary is clean. */
  predicate Separable(parts: seq<string>, sep: string) {
    && (forall i :: 0 <= i < |parts| ==> !Contains(parts[i], sep))
    && (forall i :: 0 <= i < |parts| - 1 ==> CleanBoundary(parts[i], sep, parts[i + 1]))
  }

  lemma {:induction false} JoinStartsWith(parts: seq<string>, sep: string)
    requires |parts| >= 1
    ensures StartsWith(Join(parts, sep), parts[0])
  {
  }

  lemma {:induction false} JoinEndsWith(parts: seq<string>, sep: string)
    requires |parts| >= 1
    ensures EndsWith(Join(parts, sep), parts[|parts| - 1])
    decreases |parts|
  {
    if |parts| > 1 {
      JoinEndsWith(parts[1..], sep);
      var rest := Join(parts[1..], sep);
      var whole := parts[0] + sep + rest;
      assert whole[|whole| - |rest|..] == rest;
      var last := parts[|parts| - 1];
      assert whole[|whole| - |last|..] == rest[|rest| - |last|..];
    }
  }

  /** Splitting a join gives back the pieces. */
  lemma {:induction false} SplitJoin(parts: seq<string>, sep: string)
    requires |sep| > 0 && |parts| >= 1 && Separable(parts, sep)
    ensures Split(Join(parts, sep), sep) == parts
    decreases |parts|
  {
    if |parts| == 1 {
      assert !Contains(parts[0], sep);
    } else {
      var rest := Join(parts[1..], sep);
      BoundaryBeforeJoin(parts, sep);
      FindAfterPart(parts[0], sep, rest);
      var s := parts[0] + sep + rest;
      assert Join(parts, sep) == s;
      assert s[..|parts[0]|] == parts[0];
      assert s[|parts[0]| + |sep|..] == rest;
      SplitStep(s, sep);
      SeparableTail(parts, sep);
      SplitJoin(parts[1..], sep);
      assert parts == [parts[0]] + parts[1..];
    }
  }

  lemma BoundaryBeforeJoin(parts: seq<string>, sep: string)
    requires |sep| > 0 && |parts| >= 2 && Separable(parts, sep)
    ensures CleanBoundary(parts[0], sep, Join(parts[1..], sep))
  {
    var rest := Join(parts[1..], sep);
    assert CleanBoundary(parts[0], sep, parts[1]);
    JoinStartsWith(parts[1..], sep);
    if |sep| > 1 && rest != [] {
      if |parts| == 2 {
        assert rest == parts[1];
      } else {
        assert CleanBoundary(parts[1], sep, parts[2]);
        assert rest[0] == parts[1][0];
      }
    }
  }

  lemma SeparableTail(parts: seq<string>, sep: string)
    requires |parts| >= 1 && Separable(parts, sep)
    ensures Separable(parts[1..], sep)
  {
    forall i | 0 <= i < |parts| - 2
      ensures CleanBoundary(parts[1..][i], sep, parts[1..][i + 1])
    {
      assert CleanBoundary(parts[i + 1], sep, parts[i + 2]);
    }
  }

  // ---------------------------------------------------------------------------
  // Stripping characters from the ends
  // ---------------------------------------------------------------------------

  /** `s.lstrip(chars)` / `trimStart`: drop leading characters for which `chars` holds. */
  function LStrip(s: string, chars: char -> bool): string
    decreases |s|
  {
    if |s| > 0 && chars(s[0]) then LStrip(s[1..], chars) else s
  }

  /** `LStrip` removes a prefix made of `chars` and stops at the first other
      character. */
  lemma {:induction false} LStripSpec(s: string, chars: char -> bool)
    ensures var r := LStrip(s, chars);
      && EndsWith(s, r)
      && (r == [] || !chars(r[0]))
      && forall i :: 0 <= i < |s| - |r| ==> chars(s[i])
    decreases |s|
  {
    if |s| > 0 && chars(s[0]) {
      LStripSpec(s[1..], chars);
      var r := LStrip(s, chars);
      assert s[1..][|s| - 1 - |r|..] == s[|s| - |r|..];
    }
  }

  /** `s.rstrip(chars)` / `trimEnd`: drop trailing characters for which `chars` holds. */
  function RStrip(s: string, chars: char -> bool): string
    decreases |s|
  {
    if |s| > 0 && chars(s[|s| - 1]) then RStrip(s[..|s| - 1], chars) else s
  }

  /** `RStrip` removes a suffix made of `chars` and stops at the last other
      character. */
  lemma {:induction false} RStripSpec(s: string, chars: char -> bool)
    ensures var r := RStrip(s, chars);
      && StartsWith(s, r)
      && (r == [] || !chars(r[|r| - 1]))
      && forall i :: |r| <= i < |s| ==> chars(s[i])
    decreases |s|
  {
    if |s| > 0 && chars(s[|s| - 1]) {
      RStripSpec(s[..|s| - 1], chars);
      var r := RStrip(s, chars);
      assert s[..|s| - 1][..|r|] == s[..|r|];
    }
  }

  /** `s.strip(chars)` / `trim`: both ends. */
  function StripChars(s: string, chars: char -> bool): string {
    RStrip(LStrip(s, chars), chars)
  }

  /** Stripping leaves no character of `chars` at either end. */
  lemma StripCharsEnds(s: string, chars: char -> bool)
    ensures var r := StripChars(s, chars);
      r == [] || (!chars(r[0]) && !chars(r[|r| - 1]))
  {
    var l := LStrip(s, chars);
    LStripSpec(s, chars);
    RStripSpec(l, chars);
  }

  /** A string with no character of `chars` at either end is its own strip. */
  lemma StripCharsOfClean(s: string, chars: char -> bool)
    requires s == [] || (!chars(s[0]) && !chars(s[|s| - 1]))
    ensures StripChars(s, chars) == s
  {
  }

  // ---------------------------------------------------------------------------
  // Padding and replacing
  // ---------------------------------------------------------------------------

  /** `s.padStart(width, c)`: `c` repeated on the left up to `width` characters. */
  function PadStart(s: string, width: nat, c: char): (r: string)
    ensures |r| == if |s| >= width then |s| else width
    ensures EndsWith(r, s)
    ensures forall i :: 0 <= i < |r| - |s| ==> r[i] == c
  {
    if |s| >= width then s else seq(width - |s|, _ => c) + s
  }

  /** Every character of `s` that is in `chars` replaced by `repl`
      (`re.sub` with a character class, or `s.replace` of one character). */
  function ReplaceChars(s: string, chars: set<char>, repl: char): (r: string)
    ensures |r| == |s|
    ensures forall i :: 0 <= i < |s| ==> r[i] == (if s[i] in chars then repl else s[i])
  {
    if |s| == 0 then "" else ReplaceChars(s[..|s| - 1], chars, repl) + [if s[|s| - 1] in chars then repl else s[|s| - 1]]
  }

  /** JavaScript's `s.replace(pat, repl)` with a string pattern: only the first
      occurrence is replaced. */
  function ReplaceFirst(s: string, pat: string, repl: string): (r: string)
    ensures Find(s, pat, 0) < 0 ==> r == s
    ensures Find(s, pat, 0) >= 0 ==>
      r == s[..Find(s, pat, 0)] + repl + s[Find(s, pat, 0) + |pat|..]
  {
    var k := Find(s, pat, 0);
    if k < 0 then s else s[..k] + repl + s[k + |pat|..]
  }

  // ---------------------------------------------------------------------------
  // ASCII case
  // ---------------------------------------------------------------------------

  predicate IsAsciiUpper(c: char) { 'A' <= c <= 'Z' }
  predicate IsAsciiLower(c: char) { 'a' <= c <= 'z' }
  predicate IsAsciiLetter(c: char) { IsAsciiUpper(c) || IsAsciiLower(c) }

  function LowerChar(c: char): char {
    if IsAsciiUpper(c) then (c as int + 32) as char else c
  }

  function UpperChar(c: char): char {
    if IsAsciiLower(c) then (c as int - 32) as char else c
  }

  function Lower(s: string): (r: string)
    ensures |r| == |s| && forall i :: 0 <= i < |s| ==> r[i] == LowerChar(s[i])
  {
    seq(|s|, i requires 0 <= i < |s| => LowerChar(s[i]))
  }

  function Upper(s: string): (r: string)
    ensures |r| == |s| && forall i :: 0 <= i < |s| ==> r[i] == UpperChar(s[i])
  {
    seq(|s|, i requires 0 <= i < |s| => UpperChar(s[i]))
  }
}
