/** Dotted version numbers as the archivers write, read and accept them. */
module VersionCheck {
  import opened Wrappers
  import opened Text
  import opened PyStr

  /** `".".join(map(str, nums))`; also `f"{major}.{minor}.{patch}"`. */
  function Render(nums: seq<int>): string {
    Join(RenderAll(nums), ".")
  }

  function RenderAll(nums: seq<int>): (r: seq<string>)
    ensures |r| == |nums| && forall i :: 0 <= i < |nums| ==> r[i] == IntToString(nums[i])
  {
    seq(|nums|, i requires 0 <= i < |nums| => IntToString(nums[i]))
  }

  /** `[int(n) for n in parts]`; `None` when one of them raises. */
  function ParseAll(parts: seq<string>): (r: Option<seq<int>>)
    ensures r.Some? ==> (|r.value| == |parts| &&
                         forall i :: 0 <= i < |parts| ==> ParseInt(parts[i]) == Some(r.value[i]))
    ensures r.None? ==> exists i :: 0 <= i < |parts| && ParseInt(parts[i]).None?
  {
    if |parts| == 0 then Some([])
    else
      match (ParseInt(parts[0]), ParseAll(parts[1..]))
      case (Some(n), Some(rest)) => Some([n] + rest)
      case (None, _) => None
      case (_, None) =>
        var i :| 0 <= i < |parts| - 1 && ParseInt(parts[1..][i]).None?;
        assert ParseInt(parts[i + 1]).None?;
        None
  }

  /** When every part reads as a number, the list of them is read. */
  lemma ParseAllOf(parts: seq<string>, nums: seq<int>)
    requires |parts| == |nums| && forall i :: 0 <= i < |parts| ==> ParseInt(parts[i]) == Some(nums[i])
    ensures ParseAll(parts) == Some(nums)
  {
    var r := ParseAll(parts);
    assert r.Some?;
    assert r.value == nums;
  }

  /** Reading a dotted version: split on "." and `int()` every part. */
  function ParseVersion(s: string): Option<seq<int>> {
    ParseAll(Split(s, "."))
  }

  /** Rendered numbers contain no dot. */
  lemma NoDotInNumber(n: int)
    ensures !Contains(IntToString(n), ".")
  {
    var s := IntToString(n);
    var d := NatToString(if n < 0 then -n else n);
    assert forall i :: 0 <= i < |d| ==> IsDigit(d[i]);
    AbsentChar(s, ".", 0);
  }

  /** Splitting a rendered version gives the rendered numbers back. */
  lemma SplitRender(nums: seq<int>)
    requires |nums| >= 1
    ensures Split(Render(nums), ".") == RenderAll(nums)
  {
    var parts := RenderAll(nums);
    forall i | 0 <= i < |parts| ensures !Contains(parts[i], ".") {
      NoDotInNumber(nums[i]);
    }
    SplitJoin(parts, ".");
  }

  /** Reading a rendered version gives back the numbers. */
  lemma ParseRender(nums: seq<int>)
    requires |nums| >= 1
    ensures ParseVersion(Render(nums)) == Some(nums)
  {
    SplitRender(nums);
    var parts := RenderAll(nums);
    forall i | 0 <= i < |nums| ensures ParseInt(parts[i]) == Some(nums[i]) {
      ParseIntOfString(nums[i]);
    }
    ParseAllOf(parts, nums);
  }

  // ---------------------------------------------------------------------------
  // Accepting the operator's version
  // ---------------------------------------------------------------------------

  /** `re.match(r"^[0-9]+\.[0-9]+\.[0-9]$", s)`: two digit runs and a single
      final digit, separated by dots. */
  predicate WellFormed(s: string) {
    var p := Split(s, ".");
    |p| == 3 && |p[0]| >= 1 && AllDigits(p[0]) && |p[1]| >= 1 && AllDigits(p[1])
    && |p[2]| == 1 && AllDigits(p[2])
  }

  /** `any(len(part) > 1 and part.startswith("0") for part in parts)`. */
  predicate LeadingZero(parts: seq<string>) {
    exists i :: 0 <= i < |parts| && |parts[i]| > 1 && parts[i][0] == '0'
  }

  /** The numbers of a well-formed version. */
  function Numbers(s: string): (r: seq<int>)
    requires WellFormed(s)
    ensures |r| == 3 && ParseVersion(s) == Some(r)
  {
    var p := Split(s, ".");
    ParseIntOfDigits(p[0]);
    ParseIntOfDigits(p[1]);
    ParseIntOfDigits(p[2]);
    ParseAllOf(p, [DigitsValue(p[0]), DigitsValue(p[1]), DigitsValue(p[2])]);
    [DigitsValue(p[0]), DigitsValue(p[1]), DigitsValue(p[2])]
  }

  datatype Verdict = BadFormat | LeadingZeros | NotNewer | Accepted

  /** The three checks of `get_valid_version`, in order; `previous` holds the
      numbers of the last version when there is one. */
  function Check(input: string, previous: Option<seq<int>>): (v: Verdict)
    ensures v == BadFormat <==> !WellFormed(input)
    ensures v == LeadingZeros <==> WellFormed(input) && LeadingZero(Split(input, "."))
    ensures v == Accepted <==>
      WellFormed(input) && !LeadingZero(Split(input, ".")) &&
      (previous.Some? ==> ListLess(previous.value, Numbers(input)))
  {
    if !WellFormed(input) then BadFormat
    else if LeadingZero(Split(input, ".")) then LeadingZeros
    else if previous.Some? && ListLessEq(Numbers(input), previous.value) then
      ListLessEqIff(Numbers(input), previous.value);
      NotNewer
    else if previous.Some? then
      ListLessEqIff(Numbers(input), previous.value);
      Accepted
    else
      Accepted
  }

  /** An accepted version is the plain rendering of its own numbers, so the
      checks admit exactly one spelling of each version. */
  lemma AcceptedIsCanonical(s: string)
    requires WellFormed(s) && !LeadingZero(Split(s, "."))
    ensures Render(Numbers(s)) == s
  {
    var p := Split(s, ".");
    var n := Numbers(s);
    forall i | 0 <= i < 3 ensures IntToString(n[i]) == p[i] {
      assert Canonical(p[i]);
      NatToStringOfDigits(p[i]);
    }
    assert RenderAll(n) == p;
    JoinSplit(s, ".");
  }

  /** Three single digits render as a well-formed version without leading
      zeros, which reads back as those digits. */
  lemma SingleDigits(a: nat, b: nat, c: nat)
    requires a <= 9 && b <= 9 && c <= 9
    ensures WellFormed(Render([a, b, c]))
    ensures !LeadingZero(Split(Render([a, b, c]), "."))
    ensures Numbers(Render([a, b, c])) == [a, b, c]
    ensures Render([a, b, c]) == [DigitChar(a), '.', DigitChar(b), '.', DigitChar(c)]
  {
    DigitsJoined(a, b, c);
    SplitRender([a, b, c]);
    DigitParts(a, b, c);
    ParseRender([a, b, c]);
  }

  lemma DigitParts(a: nat, b: nat, c: nat)
    requires a <= 9 && b <= 9 && c <= 9
    ensures RenderAll([a, b, c]) == [[DigitChar(a)], [DigitChar(b)], [DigitChar(c)]]
  {
  }

  lemma DigitsJoined(a: nat, b: nat, c: nat)
    requires a <= 9 && b <= 9 && c <= 9
    ensures Render([a, b, c]) == [DigitChar(a), '.', DigitChar(b), '.', DigitChar(c)]
  {
    var parts := RenderAll([a, b, c]);
    DigitParts(a, b, c);
    assert parts[1..][1..] == [[DigitChar(c)]];
    assert Join(parts[1..], ".") == [DigitChar(b)] + "." + [DigitChar(c)];
  }

  /** Well-formed versions are digits and dots, and end with a digit. */
  lemma WellFormedChars(v: string)
    requires WellFormed(v)
    ensures forall i :: 0 <= i < |v| ==> v[i] == '.' || IsDigit(v[i])
    ensures |v| > 0 && IsDigit(v[|v| - 1])
  {
    var p := Split(v, ".");
    JoinSplit(v, ".");
    assert p[1..][1..] == [p[2]];
    assert Join(p[1..], ".") == p[1] + "." + p[2];
    var w := p[0] + "." + p[1] + "." + p[2];
    assert v == w;
    assert w[|w| - 1] == p[2][0];
    forall i | 0 <= i < |w|
      ensures w[i] == '.' || IsDigit(w[i])
    {
      var a, b := |p[0]|, |p[0]| + 1 + |p[1]|;
      if i < a {
        assert w[i] == p[0][i];
      } else if a < i < b {
        assert w[i] == p[1][i - a - 1];
      } else if b < i {
        assert w[i] == p[2][i - b - 1];
      }
    }
  }

  // ---------------------------------------------------------------------------
  // The version prompt
  // ---------------------------------------------------------------------------

  /** An answer at a prompt: the offered default taken as is, or new text. */
  datatype Reply = Accept | Typed(text: string)

  function Answer(reply: Reply, default: string): string {
    match reply
    case Accept => default
    case Typed(text) => text
  }

  predicate IsV(c: char) {
    c == 'V'
  }

  // ---------------------------------------------------------------------------
  // Adding one to the last number
  // ---------------------------------------------------------------------------

  /** The numbers with one added to the last. */
  function Bumped(nums: seq<int>): (r: seq<int>)
    requires |nums| >= 1
    ensures |r| == |nums| && r[|r| - 1] == nums[|nums| - 1] + 1
    ensures forall i :: 0 <= i < |nums| - 1 ==> r[i] == nums[i]
  {
    nums[..|nums| - 1] + [nums[|nums| - 1] + 1]
  }

  /** `auto_increment` of the archivers that number freely: drop leading `V`s,
      read the dotted numbers, add one to the last and join them back; `None`
      when a part is not a number. */
  function BumpLast(ver: string): Option<string> {
    match ParseVersion(LStrip(ver, IsV))
    case None => None
    case Some(nums) => Some(Render(Bumped(nums)))
  }

  /** The suggestion exists exactly when the last version reads, and it
      reads back as the same numbers with only the last one grown by one. */
  lemma BumpLastValue(ver: string)
    ensures BumpLast(ver).Some? <==> ParseVersion(LStrip(ver, IsV)).Some?
    ensures BumpLast(ver).Some? ==>
      var nums := ParseVersion(LStrip(ver, IsV)).value;
      |nums| >= 1 && ParseVersion(BumpLast(ver).value) == Some(Bumped(nums))
  {
    var parsed := ParseVersion(LStrip(ver, IsV));
    if parsed.Some? {
      ParseRender(Bumped(parsed.value));
    }
  }
}
