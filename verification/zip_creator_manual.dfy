/** The tiered archiver (python/zip_creator_manual.py). It keeps one ledger
    per release tier (Dev, Alpha, Beta, Release, Stable), picks up the tier of
    the most recently modified ledger, suggests the next single-digit
    `X.Y.Z` version with rollover, moves to the next tier when the major
    number would pass 9, checks the operator's version, zips the project
    without `node_modules`, and appends one entry to the ledger.

    The module-level state of the script (`VERSION_TYPE`, `LOG_MD_NAME` and
    the ledger files of the log folder) is the state of an `Archiver`. */
module ZipCreatorManual {
  import opened Wrappers
  import opened Text
  import opened PyStr
  import opened Ledger
  import opened VersionCheck
  import ArchiveWalk

  const VersionTypes: seq<string> := ["Dev", "Alpha", "Beta", "Release", "Stable"]
  const Exclude: set<string> := {"node_modules"}

  /** `f"{PROJECT_NAME}_{VERSION_TYPE}_Versions.md"`. */
  function LogName(tier: nat): string
    requires tier < |VersionTypes|
  {
    Project + "_" + VersionTypes[tier] + "_Versions.md"
  }

  // ---------------------------------------------------------------------------
  // Detecting the tier
  // ---------------------------------------------------------------------------

  /** A file of the log folder and its modification time. */
  datatype LogFile = LogFile(name: string, modified: int)

  predicate IsLog(name: string) {
    StartsWith(name, Project) && EndsWith(name, "_Versions.md")
  }

  /** The ledgers among the files of the log folder, in listing order. */
  function Logs(listing: seq<LogFile>): (r: seq<LogFile>)
    ensures forall f :: f in r <==> f in listing && IsLog(f.name)
  {
    if |listing| == 0 then []
    else (if IsLog(listing[0].name) then [listing[0]] else []) + Logs(listing[1..])
  }

  /** Where `max(logs, key=modification time)` is found: the first of the
      most recently modified ledgers. */
  function LatestIndex(logs: seq<LogFile>): (k: nat)
    requires |logs| > 0
    ensures k < |logs|
    ensures forall j :: 0 <= j < |logs| ==> logs[j].modified <= logs[k].modified
    ensures forall j :: 0 <= j < k ==> logs[j].modified < logs[k].modified
  {
    var n := |logs|;
    if n == 1 then 0
    else
      var k := LatestIndex(logs[..n - 1]);
      assert forall j :: 0 <= j < n - 1 ==> logs[..n - 1][j] == logs[j];
      if logs[n - 1].modified > logs[k].modified then n - 1 else k
  }

  function Latest(logs: seq<LogFile>): (r: LogFile)
    requires |logs| > 0
    ensures r in logs && forall f :: f in logs ==> f.modified <= r.modified
  {
    logs[LatestIndex(logs)]
  }

  /** The first tier from `from` on whose name occurs in `name`. */
  function FindTier(name: string, from: nat): (r: Option<nat>)
    requires from <= |VersionTypes|
    ensures r.Some? ==> from <= r.value < |VersionTypes| && Contains(name, VersionTypes[r.value])
    ensures r.Some? ==> forall k :: from <= k < r.value ==> !Contains(name, VersionTypes[k])
    ensures r.None? ==> forall k :: from <= k < |VersionTypes| ==> !Contains(name, VersionTypes[k])
    decreases |VersionTypes| - from
  {
    if from == |VersionTypes| then None
    else if Contains(name, VersionTypes[from]) then Some(from)
    else FindTier(name, from + 1)
  }

  /** `next((t for t in VERSION_TYPES if t in name), "Dev")`, as an index:
      the first tier named in `name`, Dev when none is. */
  function TierOf(name: string): (t: nat)
    ensures t < |VersionTypes|
    ensures forall k :: 0 <= k < t ==> !Contains(name, VersionTypes[k])
    ensures Contains(name, VersionTypes[t]) || (t == 0 && forall k :: 0 <= k < |VersionTypes| ==> !Contains(name, VersionTypes[k]))
  {
    match FindTier(name, 0)
    case None => 0
    case Some(t) => t
  }

  /** The tier and ledger the script starts with: those of the latest ledger,
      or Dev when there is none or the folder cannot be listed (`None`). */
  function Detect(listing: Option<seq<LogFile>>): (r: (nat, string))
    ensures r.0 < |VersionTypes|
    ensures listing.None? || |Logs(listing.value)| == 0 ==> r == (0, LogName(0))
    ensures listing.Some? && |Logs(listing.value)| > 0 ==>
      var latest := Latest(Logs(listing.value));
      r.1 == latest.name && r.0 == TierOf(latest.name)
  {
    if listing.None? then (0, LogName(0))
    else
      var logs := Logs(listing.value);
      if |logs| == 0 then (0, LogName(0))
      else (TierOf(Latest(logs).name), Latest(logs).name)
  }

  /** The scan for the last entry: lines from the end, the first that
      parses wins. */
  method ScanBack(lines: seq<string>) returns (last: Last)
    ensures last == Recover(lines)
  {
    var i := |lines|;
    while i > 0
      invariant 0 <= i <= |lines|
      invariant forall j :: i <= j < |lines| ==> ParseFields(lines[j]).None?
    {
      var entry := ParseFields(lines[i - 1]);
      if entry.Some? {
        RecoverAt(lines, i - 1);
        return Unpack(entry.value);
      }
      i := i - 1;
    }
    RecoverNone(lines);
    return NoLast;
  }

  // ---------------------------------------------------------------------------
  // Suggesting the next version
  // ---------------------------------------------------------------------------

  /** The rollover of `auto_increment`: patch + 1, a patch above 9 carried
      into the minor number, then a minor above 9 carried into the major. */
  function Roll(major: int, minor: int, patch: int): (int, int, int) {
    var p := patch + 1;
    var (m1, p1) := if p > 9 then (minor + 1, 0) else (minor, p);
    var (M2, m2) := if m1 > 9 then (major + 1, 0) else (major, m1);
    (M2, m2, p1)
  }

  /** On single digits the rollover is the successor of the three-digit
      number `major minor patch`. */
  lemma RollIsSuccessor(major: int, minor: int, patch: int)
    requires 0 <= major <= 9 && 0 <= minor <= 9 && 0 <= patch <= 9
    ensures var (M, m, p) := Roll(major, minor, patch);
      && 0 <= M <= 10 && 0 <= m <= 9 && 0 <= p <= 9
      && 100 * M + 10 * m + p == 100 * major + 10 * minor + patch + 1
  {
  }

  /** The outcome of `auto_increment`: the program stops on a version it
      cannot read (`Crashed`) and when every tier is used up (`Exhausted`). */
  datatype Step = Crashed | Exhausted | Suggest(suggested: string, previous: string, tier: nat)

  /** `auto_increment(ver)` in tier `tier`: the suggested version, the
      previous version without its `V` (empty after a tier change) and the
      tier afterwards. */
  function Increment(ver: string, tier: nat): (s: Step)
    requires tier < |VersionTypes|
    ensures s.Suggest? ==> s.tier < |VersionTypes|
    ensures s.Suggest? && s.tier != tier ==> s.tier == tier + 1 && s == Suggest("0.0.1", "", tier + 1)
    ensures s == Exhausted ==> tier == |VersionTypes| - 1
    ensures ver == "" ==> s == Suggest("0.0.1", "", tier)
    ensures s.Suggest? && s.tier == tier && ver != "" ==>
      && s.previous == LStrip(ver, IsV)
      && ParseVersion(s.previous).Some? && |ParseVersion(s.previous).value| == 3
      && var n := ParseVersion(s.previous).value;
         var next := Roll(n[0], n[1], n[2]);
         next.0 <= 9 && s.suggested == Render([next.0, next.1, next.2])
  {
    if ver == "" then Suggest("0.0.1", "", tier)
    else
      var clean := LStrip(ver, IsV);
      match ParseVersion(clean)
      case None => Crashed
      case Some(nums) =>
        if |nums| != 3 then Crashed
        else
          var (M, m, p) := Roll(nums[0], nums[1], nums[2]);
          if M > 9 then
            if tier + 1 < |VersionTypes| then Suggest("0.0.1", "", tier + 1) else Exhausted
          else
            Suggest(Render([M, m, p]), clean, tier)
  }

  /** What the version prompt offers: a suggestion from the last version, or
      `0.0.1` without one. */
  function Propose(tier: nat, last: string): (s: Step)
    requires tier < |VersionTypes|
  {
    if last != "" then Increment(last, tier) else Suggest("0.0.1", "", tier)
  }

  /** The numbers the override is compared against. */
  function PreviousNumbers(previous: string): Option<seq<int>> {
    if previous == "" then None else ParseVersion(previous)
  }

  /** Asking again offers the same suggestion: the previous version handed
      back by `auto_increment` leads to itself. */
  lemma ProposeStable(tier: nat, last: string)
    requires tier < |VersionTypes|
    requires Propose(tier, last).Suggest?
    ensures var s := Propose(tier, last);
      s.tier < |VersionTypes| && Propose(s.tier, s.previous) == s
  {
    var s := Propose(tier, last);
    if last != "" && s.previous != "" {
      var clean := LStrip(last, IsV);
      LStripSpec(last, IsV);
      assert s.previous == clean;
      assert LStrip(clean, IsV) == clean;
    }
  }

  /** The suggestion for a single-digit previous version passes the checks. */
  lemma SuggestionAccepted(a: nat, b: nat, c: nat, tier: nat)
    requires a <= 9 && b <= 9 && c <= 9 && tier < |VersionTypes|
    ensures var s := Increment("V" + Render([a, b, c]), tier);
      s.Suggest? ==> Check(s.suggested, PreviousNumbers(s.previous)) == Accepted
  {
    StripV(a, b, c);
    ParseRender([a, b, c]);
    var (M, m, p) := Roll(a, b, c);
    RollIsSuccessor(a, b, c);
    if M > 9 {
      RestartAccepted();
    } else {
      SingleDigits(M, m, p);
      DigitsLess(a, b, c, M, m, p);
    }
  }

  /** Below `9.9.9` the suggestion in the same tier is the next three-digit
      number: `x.y.z` after `a.b.c` when `xyz` is `abc + 1`. */
  lemma SuggestsSuccessor(a: nat, b: nat, c: nat, x: nat, y: nat, z: nat, tier: nat)
    requires a <= 9 && b <= 9 && c <= 9 && tier < |VersionTypes|
    requires x <= 9 && y <= 9 && z <= 9 && 100 * x + 10 * y + z == 100 * a + 10 * b + c + 1
    ensures Increment("V" + Render([a, b, c]), tier) == Suggest(Render([x, y, z]), Render([a, b, c]), tier)
  {
    StripV(a, b, c);
    ParseRender([a, b, c]);
    RollIsSuccessor(a, b, c);
    SameDigits(Roll(a, b, c), (x, y, z));
  }

  /** Three digits are fixed by the number they spell. */
  lemma SameDigits(u: (int, int, int), v: (int, int, int))
    requires 0 <= u.0 <= 10 && 0 <= u.1 <= 9 && 0 <= u.2 <= 9
    requires 0 <= v.0 <= 9 && 0 <= v.1 <= 9 && 0 <= v.2 <= 9
    requires 100 * u.0 + 10 * u.1 + u.2 == 100 * v.0 + 10 * v.1 + v.2
    ensures u == v
  {
  }

  /** After `9.9.9` the suggestion moves to the next tier, or the tiers are
      used up. */
  lemma SuggestsNextTier(tier: nat)
    requires tier < |VersionTypes|
    ensures Increment("V" + Render([9, 9, 9]), tier)
      == if tier + 1 < |VersionTypes| then Suggest("0.0.1", "", tier + 1) else Exhausted
  {
    StripV(9, 9, 9);
    ParseRender([9, 9, 9]);
  }

  /** The leading `V` is all `lstrip('V')` takes from a rendered version. */
  lemma StripV(a: nat, b: nat, c: nat)
    requires a <= 9 && b <= 9 && c <= 9
    ensures LStrip("V" + Render([a, b, c]), IsV) == Render([a, b, c])
  {
    var ver := "V" + Render([a, b, c]);
    var clean := Render([a, b, c]);
    SingleDigits(a, b, c);
    assert ver[1..] == clean;
    assert LStrip(clean, IsV) == clean;
  }

  /** `0.0.1` passes the checks when there is nothing to compare it with. */
  lemma RestartAccepted()
    ensures Check("0.0.1", None) == Accepted
  {
    SingleDigits(0, 0, 1);
    assert Render([0, 0, 1]) == "0.0.1";
  }

  /** Three digits with the larger value compare greater as lists. */
  lemma DigitsLess(a: int, b: int, c: int, M: int, m: int, p: int)
    requires 0 <= b <= 9 && 0 <= c <= 9 && 0 <= m <= 9 && 0 <= p <= 9
    requires 100 * a + 10 * b + c < 100 * M + 10 * m + p
    ensures ListLess([a, b, c], [M, m, p])
  {
    assert [a, b, c][1..] == [b, c] && [M, m, p][1..] == [m, p];
    assert [b, c][1..] == [c] && [m, p][1..] == [p];
  }

  // ---------------------------------------------------------------------------
  // The version prompt
  // ---------------------------------------------------------------------------

  datatype Failure = BadLastVersion | TiersExhausted | NoInput

  /** `get_valid_version(last)` against a sequence of answers: the version it
      returns (or why the program stops) and the tier afterwards. */
  function Session(tier: nat, last: string, replies: seq<Reply>): (r: (Result<string, Failure>, nat))
    requires tier < |VersionTypes|
    ensures r.1 < |VersionTypes|
    decreases |replies|
  {
    match Propose(tier, last)
    case Crashed => (Err(BadLastVersion), tier)
    case Exhausted => (Err(TiersExhausted), tier)
    case Suggest(suggested, previous, t) =>
      if |replies| == 0 then (Err(NoInput), t)
      else
        var input := Strip(Answer(replies[0], suggested));
        if Check(input, PreviousNumbers(previous)) == Accepted then (Ok(input), t)
        else Session(t, previous, replies[1..])
  }

  /** The returned version is well formed, has no leading zeros and is newer
      than the previous version offered at the prompt. */
  lemma {:induction false} SessionAccepted(tier: nat, last: string, replies: seq<Reply>)
    requires tier < |VersionTypes|
    requires Session(tier, last, replies).0.Ok?
    ensures var v := Session(tier, last, replies).0.value;
      && Propose(tier, last).Suggest?
      && Check(v, PreviousNumbers(Propose(tier, last).previous)) == Accepted
    decreases |replies|
  {
    var s := Propose(tier, last);
    var input := Strip(Answer(replies[0], s.suggested));
    if Check(input, PreviousNumbers(s.previous)) != Accepted {
      ProposeStable(tier, last);
      SessionAccepted(s.tier, s.previous, replies[1..]);
    }
  }

  // ---------------------------------------------------------------------------
  // Note and names
  // ---------------------------------------------------------------------------

  /** `note_input.title() if note_input else "No_Note"` on the stripped answer. */
  function Note(answer: string): (r: string)
    ensures Strip(answer) == "" ==> r == "No_Note"
    ensures Strip(answer) != "" ==> r == Title(Strip(answer))
  {
    var t := Strip(answer);
    if t != "" then Title(t) else "No_Note"
  }

  /** The ledger file `name` as lines; a missing file reads as empty. */
  function LedgerOf(ledgers: map<string, seq<string>>, name: string): seq<string> {
    if name in ledgers then ledgers[name] else []
  }

  // ---------------------------------------------------------------------------
  // Numbering entries after a tier change
  // ---------------------------------------------------------------------------

  /** As written: the next id and the heading come from the ledger scanned at
      start, even when a tier change made the script append to another one. */
  function NumberingAsWritten(scanned: Last, target: seq<string>): int {
    scanned.id
  }

  /** Corrected: the next id and the heading come from the ledger appended to. */
  function Numbering(scanned: Last, target: seq<string>): int {
    LastId(target)
  }

  /** When the last Dev release is `V9.9.9` the next suggestion moves to
      Alpha, and the script as written appends to the new, empty Alpha
      ledger an entry numbered after the Dev ledger, with no heading. */
  lemma PromotionAsWritten(scanned: Last, e: Entry)
    requires scanned.version == "V9.9.9" && scanned.id >= 1
    requires e.id == NumberingAsWritten(scanned, []) + 1
    ensures Increment(scanned.version, 0) == Suggest("0.0.1", "", 1)
    ensures var alpha := [] + Appended(NumberingAsWritten(scanned, []), VersionTypes[1], e);
      |alpha| == 2 && alpha[0] == EntryLine(e) && e.id > 1
  {
    var ver := scanned.version;
    assert LStrip(ver, IsV) == "9.9.9" by {
      assert ver[1..] == "9.9.9";
      assert LStrip(ver[1..], IsV) == ver[1..];
    }
    SingleDigits(9, 9, 9);
    assert Render([9, 9, 9]) == "9.9.9";
    ParseRender([9, 9, 9]);
    assert Render([0, 0, 1]) == "0.0.1" by {
      SingleDigits(0, 0, 1);
    }
  }

  /** With the corrected numbering every ledger starts with its heading and
      numbers its entries 1, 2, 3, ... */
  lemma NumberingCorrected(target: seq<string>, scanned: Last, tier: string, e: Entry)
    requires Writable(e) && Quotable(e.version) && Quotable(e.note)
    requires e.id == Numbering(scanned, target) + 1 && e.id >= 0
    ensures Recover(target) == NoLast ==>
      var next := target + Appended(Numbering(scanned, target), tier, e);
      next[|target|] == Header(tier) && Recover(next).id == 1
    ensures Recover(target + Appended(Numbering(scanned, target), tier, e)).id == Recover(target).id + 1
  {
    RecoverAppended(target, Numbering(scanned, target), tier, e);
  }

  // ---------------------------------------------------------------------------
  // The archiver
  // ---------------------------------------------------------------------------

  /** What one run produced. */
  datatype Release = Release(note: string, visits: seq<ArchiveWalk.Visit>, priorId: int, entry: Entry)

  class Archiver {
    /** `VERSION_TYPE`, as an index into `VersionTypes`. */
    var tier: nat
    /** `LOG_MD_NAME`. */
    var logName: string
    /** The ledger files of the log folder, by name. */
    var ledgers: map<string, seq<string>>

    predicate Valid()
      reads this
    {
      tier < |VersionTypes|
    }

    /** Start-up: tier detection over the listing of the log folder. */
    constructor (listing: Option<seq<LogFile>>, files: map<string, seq<string>>)
      ensures Valid()
      ensures (tier, logName) == Detect(listing) && ledgers == files
    {
      var detected := Detect(listing);
      tier, logName := detected.0, detected.1;
      ledgers := files;
    }

    /** `auto_increment`: on a tier change it also switches the ledger. */
    method AutoIncrement(ver: string) returns (step: Step)
      requires Valid()
      modifies this
      ensures Valid()
      ensures step == Increment(ver, old(tier))
      ensures tier == if step.Suggest? then step.tier else old(tier)
      ensures tier >= old(tier)
      ensures tier == old(tier) ==> logName == old(logName)
      ensures tier != old(tier) ==> logName == LogName(tier)
      ensures ledgers == old(ledgers)
    {
      step := Increment(ver, tier);
      if step.Suggest? && step.tier != tier {
        tier := step.tier;
        logName := LogName(tier);
      }
    }

    /** The suggestion at the version prompt: `auto_increment(last)` when there
        is a last version, `0.0.1` otherwise. */
    method Offer(last: string) returns (step: Step)
      requires Valid()
      modifies this
      ensures Valid()
      ensures step == Propose(old(tier), last)
      ensures tier == if step.Suggest? then step.tier else old(tier)
      ensures tier >= old(tier)
      ensures tier == old(tier) ==> logName == old(logName)
      ensures tier != old(tier) ==> logName == LogName(tier)
      ensures ledgers == old(ledgers)
    {
      if last != "" {
        step := AutoIncrement(last);
      } else {
        step := Suggest("0.0.1", "", tier);
      }
    }

    /** `get_valid_version`: offer a suggestion, read an answer, check it,
        and ask again until one passes. */
    method GetValidVersion(last: string, replies: seq<Reply>) returns (r: Result<string, Failure>)
      requires Valid()
      modifies this
      ensures Valid()
      ensures (r, tier) == Session(old(tier), last, replies)
      ensures tier == old(tier) ==> logName == old(logName)
      ensures tier != old(tier) ==> logName == LogName(tier)
      ensures ledgers == old(ledgers)
    {
      var previous := last;
      var rest := replies;
      while true
        invariant Valid() && tier >= old(tier)
        invariant Session(old(tier), last, replies) == Session(tier, previous, rest)
        invariant tier == old(tier) ==> logName == old(logName)
        invariant tier != old(tier) ==> logName == LogName(tier)
        invariant ledgers == old(ledgers)
        decreases |rest|
      {
        var step := Offer(previous);
        if step == Crashed {
          return Err(BadLastVersion);
        } else if step == Exhausted {
          return Err(TiersExhausted);
        }
        if rest == [] {
          return Err(NoInput);
        }
        var input := Strip(Answer(rest[0], step.suggested));
        if Check(input, PreviousNumbers(step.previous)) == Accepted {
          return Ok(input);
        }
        previous, rest := step.previous, rest[1..];
      }
    }

    /** One run of the script, from the ledger scan to the append: what the
        scan found, the outcome of the version prompt and, when a version
        was accepted, what was archived and recorded. As in the script, the
        entry is numbered after the ledger scanned at start; that is the
        ledger appended to unless the prompt changed the tier (see
        `PromotionAsWritten` and, for the corrected numbering,
        `NumberingCorrected`). */
    method Run(replies: seq<Reply>, noteAnswer: string, tree: seq<ArchiveWalk.Entry>, now: Moment)
      returns (scanned: Last, version: Result<string, Failure>, release: Option<Release>)
      requires Valid()
      modifies this
      ensures Valid()
      ensures scanned == Recover(LedgerOf(old(ledgers), old(logName)))
      ensures (version, tier) == Session(old(tier), scanned.version, replies)
      ensures release.Some? <==> version.Ok?
      ensures release.Some? ==>
        && release.value.note == Note(noteAnswer)
        && release.value.visits == ArchiveWalk.Walk([], tree, Exclude)
        && release.value.priorId == NumberingAsWritten(scanned, LedgerOf(old(ledgers), logName)) == scanned.id
        && (tier == old(tier) ==> release.value.priorId == LastId(LedgerOf(old(ledgers), logName)))
        && release.value.entry == NewEntry(release.value.priorId + 1, now, scanned.version, version.value, release.value.note)
        && ledgers == old(ledgers)[logName := LedgerOf(old(ledgers), logName) +
                                   Appended(release.value.priorId, VersionTypes[tier], release.value.entry)]
      ensures release.None? ==> ledgers == old(ledgers)
    {
      scanned := ScanBack(LedgerOf(ledgers, logName));
      version := GetValidVersion(scanned.version, replies);
      if version.Err? {
        return scanned, version, None;
      }
      var recorded := Record(scanned, version.value, noteAnswer, tree, now);
      release := Some(recorded);
    }

    /** The part of a run after an accepted version: the note, the walk and
        the append to the current ledger, numbered one past the scanned id. */
    method Record(scanned: Last, version: string, noteAnswer: string, tree: seq<ArchiveWalk.Entry>, now: Moment)
      returns (release: Release)
      requires Valid()
      modifies this
      ensures Valid() && tier == old(tier) && logName == old(logName)
      ensures release.note == Note(noteAnswer)
      ensures release.visits == ArchiveWalk.Walk([], tree, Exclude)
      ensures release.priorId == NumberingAsWritten(scanned, LedgerOf(old(ledgers), logName)) == scanned.id
      ensures release.entry == NewEntry(release.priorId + 1, now, scanned.version, version, release.note)
      ensures ledgers == old(ledgers)[logName := LedgerOf(old(ledgers), logName) +
                                      Appended(release.priorId, VersionTypes[tier], release.entry)]
    {
      var note := Note(noteAnswer);
      var visits := ArchiveWalk.Collect(tree, Exclude);
      var target := LedgerOf(ledgers, logName);
      var priorId := NumberingAsWritten(scanned, target);
      var entry := NewEntry(priorId + 1, now, scanned.version, version, note);
      ledgers := ledgers[logName := target + Appended(priorId, VersionTypes[tier], entry)];
      release := Release(note, visits, priorId, entry);
    }
  }
}
