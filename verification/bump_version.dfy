/** The release bumper run by the build (versioner/bump-version.js). It
    reads the last entry of the version list, classifies the commit
    messages since that release, raises the dotted version by the strongest
    change found, restarts at `0.0.1` in the next environment once a number
    passes 9, numbers the release `VRN` and seven digits, and appends the
    new entry to the list. The git log and the clock are inputs. */
module BumpVersion {
  import opened Wrappers
  import opened Text
  import opened Js
  import VersionCheck
  import PyStr

  const Environments: seq<string> := ["dev", "test", "staging", "beta", "production", "hotfix"]

  // ---------------------------------------------------------------------------
  // Classifying commit messages
  // ---------------------------------------------------------------------------

  datatype Bump = Patch | Minor | Major

  /** What the classification collected: the bump and the four lists of
      notes. */
  datatype Notes = Notes(bump: Bump, added: seq<string>, fixed: seq<string>, improved: seq<string>, other: seq<string>)

  const NoNotes := Notes(Patch, [], [], [], [])

  predicate IsBreaking(msg: string) {
    ContainsIgnoringCase(msg, "breaking change")
  }

  predicate IsFeat(msg: string) {
    StartsWith(Lower(msg), "feat:")
  }

  predicate IsFix(msg: string) {
    StartsWith(Lower(msg), "fix:")
  }

  predicate IsPerf(msg: string) {
    StartsWith(Lower(msg), "perf:")
  }

  /** One message that is not a breaking change. */
  function Note(n: Notes, msg: string): (r: Notes)
    requires !IsBreaking(msg)
  {
    if IsFeat(msg) then
      n.(bump := if n.bump == Major then Major else Minor, added := n.added + [Trim(msg[5..])])
    else if IsFix(msg) then
      n.(fixed := n.fixed + [Trim(msg[4..])])
    else if IsPerf(msg) then
      n.(improved := n.improved + [Trim(msg[5..])])
    else
      n.(other := n.other + [msg])
  }

  /** The classification loop from state `n`: a breaking change makes the
      bump major, is noted, and ends the loop. */
  function Classify(messages: seq<string>, n: Notes): Notes
    decreases |messages|
  {
    if |messages| == 0 then n
    else if IsBreaking(messages[0]) then
      n.(bump := Major, other := n.other + ["BREAKING CHANGE: " + messages[0]])
    else Classify(messages[1..], Note(n, messages[0]))
  }

  function Rank(b: Bump): nat {
    match b
    case Patch => 0
    case Minor => 1
    case Major => 2
  }

  /** The bump is major exactly when some message is a breaking change;
      otherwise it is minor exactly when some message is a feature; and it
      never falls below the bump it started from. */
  lemma {:induction false} ClassifyBump(messages: seq<string>, n: Notes)
    ensures Classify(messages, n).bump == Major <==>
      n.bump == Major || exists k :: 0 <= k < |messages| && IsBreaking(messages[k])
    ensures (forall k :: 0 <= k < |messages| ==> !IsBreaking(messages[k])) ==>
      (Classify(messages, n).bump == Minor <==>
        n.bump == Minor || (n.bump == Patch && exists k :: 0 <= k < |messages| && IsFeat(messages[k])))
    ensures Rank(Classify(messages, n).bump) >= Rank(n.bump)
    decreases |messages|
  {
    if |messages| > 0 && !IsBreaking(messages[0]) {
      var tail := messages[1..];
      ClassifyBump(tail, Note(n, messages[0]));
      assert forall k :: 1 <= k < |messages| ==> messages[k] == tail[k - 1];
      if exists k :: 0 <= k < |tail| && IsBreaking(tail[k]) {
        var k :| 0 <= k < |tail| && IsBreaking(tail[k]);
        assert IsBreaking(messages[k + 1]);
      }
      if exists k :: 0 <= k < |tail| && IsFeat(tail[k]) {
        var k :| 0 <= k < |tail| && IsFeat(tail[k]);
        assert IsFeat(messages[k + 1]);
      }
    }
  }

  /** The four lists of the release notes. */
  datatype Section = Features | Fixes | Improvements | Others

  /** The list a message that is not a breaking change belongs to. */
  function SectionOf(msg: string): Section {
    if IsFeat(msg) then Features
    else if IsFix(msg) then Fixes
    else if IsPerf(msg) then Improvements
    else Others
  }

  /** The line a message contributes to its list: the text after the prefix,
      trimmed, or the whole message in the other list. */
  function Item(msg: string): string {
    match SectionOf(msg)
    case Features => Trim(msg[5..])
    case Fixes => Trim(msg[4..])
    case Improvements => Trim(msg[5..])
    case Others => msg
  }

  /** The lines of the messages that belong to `section`, in their order. */
  function InSection(messages: seq<string>, section: Section): seq<string>
    decreases |messages|
  {
    if |messages| == 0 then []
    else (if SectionOf(messages[0]) == section then [Item(messages[0])] else []) + InSection(messages[1..], section)
  }

  /** Without a breaking change each list grows by the lines of exactly the
      messages of its kind, in the order of the messages. */
  lemma {:induction false} ClassifyCounts(messages: seq<string>, n: Notes)
    requires forall k :: 0 <= k < |messages| ==> !IsBreaking(messages[k])
    ensures var r := Classify(messages, n);
      && r.added == n.added + InSection(messages, Features)
      && r.fixed == n.fixed + InSection(messages, Fixes)
      && r.improved == n.improved + InSection(messages, Improvements)
      && r.other == n.other + InSection(messages, Others)
    decreases |messages|
  {
    if |messages| > 0 {
      var msg, tail := messages[0], messages[1..];
      var m := Note(n, msg);
      ClassifyCounts(tail, m);
      NoteSection(n, msg);
      ClassifyStep(messages, n);
      var r := Classify(tail, m);
      AppendStep(n.added, m.added, r.added, messages, Features);
      AppendStep(n.fixed, m.fixed, r.fixed, messages, Fixes);
      AppendStep(n.improved, m.improved, r.improved, messages, Improvements);
      AppendStep(n.other, m.other, r.other, messages, Others);
    }
  }

  /** One list across one message: what the message added to it, followed
      by what the rest of the messages add. */
  lemma AppendStep(before: seq<string>, after: seq<string>, result: seq<string>, messages: seq<string>, section: Section)
    requires |messages| > 0
    requires after == before + (if SectionOf(messages[0]) == section then [Item(messages[0])] else [])
    requires result == after + InSection(messages[1..], section)
    ensures result == before + InSection(messages, section)
  {
    InSectionStep(messages, section);
  }

  lemma ClassifyStep(messages: seq<string>, n: Notes)
    requires |messages| > 0 && !IsBreaking(messages[0])
    ensures Classify(messages, n) == Classify(messages[1..], Note(n, messages[0]))
  {
  }

  lemma InSectionStep(messages: seq<string>, section: Section)
    requires |messages| > 0
    ensures InSection(messages, section) ==
      (if SectionOf(messages[0]) == section then [Item(messages[0])] else []) + InSection(messages[1..], section)
  {
  }

  /** One message adds its line to the end of its own list and leaves the
      other lists as they were. */
  lemma NoteSection(n: Notes, msg: string)
    requires !IsBreaking(msg)
    ensures var m := Note(n, msg);
      && m.added == n.added + (if SectionOf(msg) == Features then [Item(msg)] else [])
      && m.fixed == n.fixed + (if SectionOf(msg) == Fixes then [Item(msg)] else [])
      && m.improved == n.improved + (if SectionOf(msg) == Improvements then [Item(msg)] else [])
      && m.other == n.other + (if SectionOf(msg) == Others then [Item(msg)] else [])
  {
  }

  /** Every message lands in exactly one list. */
  lemma {:induction false} SectionsPartition(messages: seq<string>)
    ensures |InSection(messages, Features)| + |InSection(messages, Fixes)| +
            |InSection(messages, Improvements)| + |InSection(messages, Others)| == |messages|
    decreases |messages|
  {
    if |messages| > 0 {
      SectionsPartition(messages[1..]);
    }
  }

  /** Messages after the first breaking change are not read. */
  lemma {:induction false} ClassifyStops(messages: seq<string>, n: Notes, k: nat)
    requires k < |messages| && IsBreaking(messages[k])
    ensures Classify(messages, n) == Classify(messages[..k + 1], n)
    decreases k
  {
    var front := messages[..k + 1];
    if k > 0 && !IsBreaking(messages[0]) {
      assert front[1..] == messages[1..][..k];
      ClassifyStops(messages[1..], Note(n, messages[0]), k - 1);
    }
  }

  /** The classification loop. */
  method ClassifyCommits(messages: seq<string>) returns (n: Notes)
    ensures n == Classify(messages, NoNotes)
  {
    n := NoNotes;
    var rest := messages;
    while rest != []
      invariant Classify(messages, NoNotes) == Classify(rest, n)
      decreases |rest|
    {
      var msg := rest[0];
      if IsBreaking(msg) {
        n := n.(bump := Major, other := n.other + ["BREAKING CHANGE: " + msg]);
        return;
      } else if IsFeat(msg) {
        n := n.(bump := if n.bump == Major then Major else Minor, added := n.added + [Trim(msg[5..])]);
      } else if IsFix(msg) {
        n := n.(bump := if n.bump == Major || n.bump == Minor then n.bump else Patch, fixed := n.fixed + [Trim(msg[4..])]);
      } else if IsPerf(msg) {
        n := n.(improved := n.improved + [Trim(msg[5..])]);
      } else {
        n := n.(other := n.other + [msg]);
      }
      rest := rest[1..];
    }
  }

  // ---------------------------------------------------------------------------
  // The version numbers
  // ---------------------------------------------------------------------------

  /** A destructured part of `version.split('.').map(Number)`: `None` is
      `undefined`, for a version with fewer than three parts. */
  type Part = Option<Number>

  function PartAt(parts: seq<string>, i: nat): Part {
    if i < |parts| then Some(ToNumber(parts[i])) else None
  }

  /** `let [major, minor, patch] = version.split('.').map(Number)`. */
  function Parts(version: string): (Part, Part, Part) {
    var parts := Split(version, ".");
    (PartAt(parts, 0), PartAt(parts, 1), PartAt(parts, 2))
  }

  /** `x++` (`undefined++` is NaN). */
  function Inc(x: Part): Part {
    match x
    case None => Some(NaN)
    case Some(n) => Some(Increment(n))
  }

  /** `x > 9` (false for NaN and `undefined`). */
  predicate Above9(x: Part) {
    x.Some? && x.value.Int? && x.value.value > 9
  }

  /** `` `${x}` ``. */
  function PartText(x: Part): string {
    match x
    case None => "undefined"
    case Some(n) => NumberToString(n)
  }

  function VersionText(v: (Part, Part, Part)): string {
    PartText(v.0) + "." + PartText(v.1) + "." + PartText(v.2)
  }

  /** The raised numbers and whether they restarted at `0.0.1`. */
  function Raise(v: (Part, Part, Part), bump: Bump): ((Part, Part, Part), bool) {
    var raised :=
      match bump
      case Major => (Inc(v.0), Some(Int(0)), Some(Int(0)))
      case Minor => (v.0, Inc(v.1), Some(Int(0)))
      case Patch => (v.0, v.1, Inc(v.2));
    if Above9(raised.0) || Above9(raised.1) || Above9(raised.2) then
      (Digits(0, 0, 1), true)
    else (raised, false)
  }

  function Digits(a: int, b: int, c: int): (Part, Part, Part) {
    (Some(Int(a)), Some(Int(b)), Some(Int(c)))
  }

  /** On single digits the raise keeps single digits; it restarts exactly
      when the raised number was 9; otherwise the three-digit number grows,
      a major raise zeroes minor and patch and a minor raise zeroes patch. */
  lemma RaiseDigits(a: int, b: int, c: int, bump: Bump)
    requires 0 <= a <= 9 && 0 <= b <= 9 && 0 <= c <= 9
    ensures var (r, restart) := Raise(Digits(a, b, c), bump);
      && (restart <==> match bump case Major => a == 9 case Minor => b == 9 case Patch => c == 9)
      && (restart ==> r == Digits(0, 0, 1))
      && (!restart ==> exists x, y, z ::
            && r == Digits(x, y, z) && 0 <= x <= 9 && 0 <= y <= 9 && 0 <= z <= 9
            && 100 * x + 10 * y + z > 100 * a + 10 * b + c
            && (bump == Major ==> y == 0 && z == 0)
            && (bump == Minor ==> x == a && z == 0)
            && (bump == Patch ==> x == a && y == b))
  {
    var (r, restart) := Raise(Digits(a, b, c), bump);
    if !restart {
      match bump
      case Major => assert r == Digits(a + 1, 0, 0);
      case Minor => assert r == Digits(a, b + 1, 0);
      case Patch => assert r == Digits(a, b, c + 1);
    }
  }

  /** The next run reads back the version this run writes. */
  lemma PartsOfVersionText(a: nat, b: nat, c: nat)
    ensures Parts(VersionText(Digits(a, b, c))) == Digits(a, b, c)
  {
    var text := VersionText(Digits(a, b, c));
    var nums := [a as int, b as int, c as int];
    assert VersionCheck.RenderAll(nums) == [IntToString(a), IntToString(b), IntToString(c)];
    var parts := VersionCheck.RenderAll(nums);
    assert parts[1..][1..] == [IntToString(c)];
    assert Join(parts[1..], ".") == IntToString(b) + "." + IntToString(c);
    assert VersionCheck.Render(nums) == IntToString(a) + "." + (IntToString(b) + "." + IntToString(c));
    assert VersionCheck.Render(nums) == text;
    VersionCheck.SplitRender(nums);
    ToNumberOfString(a);
    ToNumberOfString(b);
    ToNumberOfString(c);
  }

  // ---------------------------------------------------------------------------
  // Environment
  // ---------------------------------------------------------------------------

  /** The environment of the new release: the next one in the list after a
      restart, `dev` after the last one or an unknown one. */
  function NextEnvironment(env: string, restart: bool): string {
    if !restart then env
    else
      var i := IndexOf(Environments, env);
      if i == -1 || i == |Environments| - 1 then Environments[0] else Environments[i + 1]
  }

  /** A restart moves one step round the cycle of environments. */
  lemma EnvironmentCycle(i: nat)
    requires i < |Environments|
    ensures NextEnvironment(Environments[i], true) == Environments[(i + 1) % |Environments|]
    ensures NextEnvironment(Environments[i], false) == Environments[i]
  {
    EnvironmentIndex(i);
    if i == 5 {
      assert (i + 1) % |Environments| == 0;
    } else {
      assert (i + 1) % |Environments| == i + 1;
    }
  }

  /** Each environment is found at its own place in the list. */
  lemma EnvironmentIndex(i: nat)
    requires i < |Environments|
    ensures IndexOf(Environments, Environments[i]) == i
  {
    var k := IndexOf(Environments, Environments[i]);
    InitialsDistinct();
    assert Environments[k][0] == Environments[i][0];
  }

  /** The environments start with six different letters. */
  lemma InitialsDistinct()
    ensures forall j :: 0 <= j < |Environments| ==> |Environments[j]| > 0 && Environments[j][0] == "dtsbph"[j]
    ensures forall j, l :: 0 <= j < l < 6 ==> "dtsbph"[j] != "dtsbph"[l]
  {
  }

  /** An environment outside the list restarts at `dev`. */
  lemma UnknownEnvironment(env: string)
    requires env !in Environments
    ensures NextEnvironment(env, true) == "dev"
  {
  }

  // ---------------------------------------------------------------------------
  // Release ids
  // ---------------------------------------------------------------------------

  /** `` `VRN${String(n).padStart(7, '0')}` ``. */
  function VersionId(n: Number): string {
    "VRN" + PadStart(NumberToString(n), 7, '0')
  }

  /** `Number(versionId.replace('VRN', '')) + 1`. */
  function NextIdNumber(versionId: string): Number {
    Increment(ToNumber(ReplaceFirst(versionId, "VRN", "")))
  }

  /** Release ids count up: the id after `VRN` and `n` is `n + 1`. */
  lemma NextIdOfVersionId(n: nat)
    ensures NextIdNumber(VersionId(Int(n))) == Int(n + 1)
  {
    IdNumber(n);
    NextOfNumber(VersionId(Int(n)), n);
  }

  lemma NextOfNumber(id: string, n: nat)
    requires ToNumber(ReplaceFirst(id, "VRN", "")) == Int(n)
    ensures NextIdNumber(id) == Int(n + 1)
  {
  }

  lemma IdNumber(n: nat)
    ensures ToNumber(ReplaceFirst(VersionId(Int(n)), "VRN", "")) == Int(n)
  {
    var padded := PadStart(NatToString(n), 7, '0');
    assert VersionId(Int(n)) == "VRN" + padded;
    DropPrefix(padded);
    PaddedNumber(n);
  }

  lemma DropPrefix(x: string)
    ensures ReplaceFirst("VRN" + x, "VRN", "") == x
  {
    var id := "VRN" + x;
    assert OccursAt(id, "VRN", 0);
    FindFirst(id, "VRN", 0, 0);
    assert id[3..] == x;
  }

  lemma PaddedNumber(n: nat)
    ensures ToNumber(PadStart(NatToString(n), 7, '0')) == Int(n)
  {
    PyStr.ZeroPaddedValue(NatToString(n), 7);
    ToNumberOfDigits(PadStart(NatToString(n), 7, '0'));
  }

  // ---------------------------------------------------------------------------
  // The release entry
  // ---------------------------------------------------------------------------

  /** The fields of a version-list entry that the bumper reads or sets. */
  datatype Release = Release(
    version: string, versionId: string, environment: string, breakingChanges: bool,
    added: seq<string>, fixed: seq<string>, improved: seq<string>, notes: seq<string>, commitHash: string)

  /** The entry assumed when the list is empty. */
  const Initial := Release("0.0.0", "VRN0000000", "dev", false, [], [], [], [], "")

  function LatestOf(versions: seq<Release>): Release {
    if |versions| > 0 then versions[|versions| - 1] else Initial
  }

  /** The new entry, from the entry it follows, the classified messages and
      the head commit. */
  function NextRelease(versions: seq<Release>, notes: Notes, head: string): (r: Release)
    ensures r.breakingChanges <==> notes.bump == Major
    ensures |versions| == 0 ==> r.versionId == VersionId(Int(1))
    ensures |versions| > 0 ==> r.versionId == VersionId(NextIdNumber(versions[|versions| - 1].versionId))
  {
    var latest := LatestOf(versions);
    var (v, restart) := Raise(Parts(latest.version), notes.bump);
    var id := if |versions| > 0 then NextIdNumber(latest.versionId) else Int(1);
    Release(VersionText(v), VersionId(id), NextEnvironment(latest.environment, restart), notes.bump == Major,
            notes.added, notes.fixed, notes.improved, notes.other, head)
  }

  /** One run: classify the messages and append the new entry. */
  method Run(versions: seq<Release>, messages: seq<string>, head: string) returns (entry: Release, updated: seq<Release>)
    ensures entry == NextRelease(versions, Classify(messages, NoNotes), head)
    ensures updated == versions + [entry] && LatestOf(updated) == entry
  {
    var notes := ClassifyCommits(messages);
    entry := NextRelease(versions, notes, head);
    updated := versions + [entry];
  }
}
