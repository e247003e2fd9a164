/** The commit-hook versioner (versioner/versioner.js). For each commit it
    decides the kind of bump from the message; a `revert:` marks the newest
    release reverted, a breaking change raises the major number, a
    conventional commit raises the patch number with rollover, and any
    other commit changes nothing. New releases go to the front of the
    version list with the next sequential id. The configuration file, git
    and the clock are inputs; the version list file is a `VersionsFile`. */
module Versioner {
  import opened Wrappers
  import opened Text
  import opened Js
  import opened BumpVersion
  import PyStr

  // ---------------------------------------------------------------------------
  // Version ids
  // ---------------------------------------------------------------------------

  /** The id numbered `n`: the prefix and `n` zero-padded to seven digits. */
  function IdOf(prefix: string, n: nat): string {
    prefix + PadStart(NatToString(n), 7, '0')
  }

  /** `generateVersionId(prefix, versions)`: one past the id of the newest
      release (`versions[0]`), read with `parseInt` after dropping the prefix. */
  function GenerateVersionId(prefix: string, versions: seq<Entry>): string {
    if |versions| == 0 then prefix + "0000001"
    else
      var lastId := if Truthy(versions[0].versionId) then versions[0].versionId else prefix + "0000000";
      var num := Increment(Js.ParseInt(ReplaceFirst(lastId, prefix, "")));
      prefix + PadStart(NumberToString(num), 7, '0')
  }

  lemma DropPrefix(prefix: string, x: string)
    ensures ReplaceFirst(prefix + x, prefix, "") == x
  {
    var s := prefix + x;
    assert OccursAt(s, prefix, 0);
    FindFirst(s, prefix, 0, 0);
    assert s[|prefix|..] == x;
  }

  lemma PaddedValue(n: nat)
    ensures Js.ParseInt(PadStart(NatToString(n), 7, '0')) == Int(n)
  {
    PyStr.ZeroPaddedValue(NatToString(n), 7);
    ParseIntOfDigits(PadStart(NatToString(n), 7, '0'));
  }

  /** The first release gets number 1. */
  lemma FirstId(prefix: string)
    ensures GenerateVersionId(prefix, []) == IdOf(prefix, 1)
  {
    assert NatToString(1) == "1";
    assert PadStart("1", 7, '0') == "0000001";
  }

  /** The id after an entry read as number `n` is number `n + 1`; an
      entry without an id reads as number 0. */
  lemma IdAfter(prefix: string, e: Entry, rest: seq<Entry>, n: nat)
    requires e.versionId == IdOf(prefix, n) || (n == 0 && e.versionId == "")
    ensures GenerateVersionId(prefix, [e] + rest) == IdOf(prefix, n + 1)
  {
    var versions := [e] + rest;
    assert versions[0] == e;
    var lastId := if Truthy(e.versionId) then e.versionId else prefix + "0000000";
    assert lastId == IdOf(prefix, n) by {
      if e.versionId == "" {
        assert NatToString(0) == "0";
        assert PadStart("0", 7, '0') == "0000000";
      }
    }
    NextIdOf(prefix, n);
  }

  lemma NextIdOf(prefix: string, n: nat)
    ensures Increment(Js.ParseInt(ReplaceFirst(IdOf(prefix, n), prefix, ""))) == Int(n + 1)
  {
    IdDigits(prefix, n);
  }

  /** Dropping the prefix from an id leaves its seven padded digits, which
      read back as its number. */
  lemma IdDigits(prefix: string, n: nat)
    ensures ReplaceFirst(IdOf(prefix, n), prefix, "") == PadStart(NatToString(n), 7, '0')
    ensures Js.ParseInt(ReplaceFirst(IdOf(prefix, n), prefix, "")) == Int(n)
  {
    DropPrefix(prefix, PadStart(NatToString(n), 7, '0'));
    PaddedValue(n);
  }

  // ---------------------------------------------------------------------------
  // Bump kinds
  // ---------------------------------------------------------------------------

  datatype Kind = Rollback | MajorBump | PatchBump

  /** `/^(feat|fix|refactor|perf|improve):/i`. */
  predicate Conventional(msg: string) {
    || StartsWithIgnoringCase(msg, "feat:") || StartsWithIgnoringCase(msg, "fix:")
    || StartsWithIgnoringCase(msg, "refactor:") || StartsWithIgnoringCase(msg, "perf:")
    || StartsWithIgnoringCase(msg, "improve:")
  }

  /** `/BREAKING CHANGE/i`. */
  predicate Breaking(msg: string) {
    ContainsIgnoringCase(msg, "BREAKING CHANGE")
  }

  /** `getBumpType(message)`; `None` is `null`, a commit that is skipped. */
  function BumpType(msg: string): (r: Option<Kind>)
    ensures r == Some(Rollback) <==> StartsWithIgnoringCase(msg, "revert:")
    ensures r == Some(MajorBump) <==> !StartsWithIgnoringCase(msg, "revert:") && Breaking(msg)
    ensures r == Some(PatchBump) <==> !StartsWithIgnoringCase(msg, "revert:") && !Breaking(msg) && Conventional(msg)
    ensures r.None? <==> !StartsWithIgnoringCase(msg, "revert:") && !Breaking(msg) && !Conventional(msg)
  {
    if StartsWithIgnoringCase(msg, "revert:") then Some(Rollback)
    else if Breaking(msg) then Some(MajorBump)
    else if Conventional(msg) then Some(PatchBump)
    else None
  }

  // ---------------------------------------------------------------------------
  // Version numbers
  // ---------------------------------------------------------------------------

  const Scheme: string := "major.minor.patch"

  /** `bumpVersion(current, type, scheme)`: a major raise zeroes minor and
      patch; any other raise adds one to the patch, carrying into minor and
      then major past 9; another scheme only re-renders the numbers. */
  function NextVersion(current: string, kind: Kind, scheme: string): string {
    VersionText(Raised(Parts(current), kind, scheme))
  }

  /** The three numbers after the raise. */
  function Raised(v: (Part, Part, Part), kind: Kind, scheme: string): (Part, Part, Part) {
    var (major, minor, patch) := v;
    if scheme != Scheme then v
    else if kind == MajorBump then (Inc(major), Some(Int(0)), Some(Int(0)))
    else
      var p := Inc(patch);
      if !Above9(p) then (major, minor, p)
      else
        var m := Inc(minor);
        if !Above9(m) then (major, m, Some(Int(0)))
        else (Inc(major), Some(Int(0)), Some(Int(0)))
  }

  /** The digits of a number below 1000 per hundred: `n / 100`, then the
      tens and the units. */
  function DigitsOf(n: nat): (Part, Part, Part) {
    Digits(n / 100, (n / 10) % 10, n % 10)
  }

  /** A patch raise counts up by one: on a version whose minor and patch
      are single digits it gives the version of the next number. */
  lemma PatchIsSuccessor(a: nat, b: nat, c: nat, kind: Kind)
    requires b <= 9 && c <= 9 && kind != MajorBump
    ensures NextVersion(VersionText(Digits(a, b, c)), kind, Scheme) == VersionText(DigitsOf(100 * a + 10 * b + c + 1))
  {
    PartsOfVersionText(a, b, c);
    RaisedPatch(a, b, c, kind);
  }

  lemma RaisedPatch(a: nat, b: nat, c: nat, kind: Kind)
    requires b <= 9 && c <= 9 && kind != MajorBump
    ensures Raised(Digits(a, b, c), kind, Scheme) == DigitsOf(100 * a + 10 * b + c + 1)
  {
    if c < 9 {
      DigitsOfNumber(a, b, c + 1);
    } else if b < 9 {
      DigitsOfNumber(a, b + 1, 0);
    } else {
      DigitsOfNumber(a + 1, 0, 0);
    }
  }

  lemma DigitsOfNumber(a: nat, b: nat, c: nat)
    requires b <= 9 && c <= 9
    ensures DigitsOf(100 * a + 10 * b + c) == Digits(a, b, c)
  {
    var n := 100 * a + 10 * b + c;
    assert n == (10 * a + b) * 10 + c;
    assert n % 10 == c && n / 10 == 10 * a + b;
    assert (n / 10) % 10 == b;
    assert n == a * 100 + (10 * b + c);
    assert n / 100 == a;
  }

  /** A major raise adds one to the major number and zeroes the others. */
  lemma MajorRaise(a: nat, b: nat, c: nat)
    ensures NextVersion(VersionText(Digits(a, b, c)), MajorBump, Scheme) == VersionText(Digits(a + 1, 0, 0))
  {
    PartsOfVersionText(a, b, c);
  }

  /** Another scheme leaves a written version as it is. */
  lemma OtherSchemeKeeps(a: nat, b: nat, c: nat, kind: Kind, scheme: string)
    requires scheme != Scheme
    ensures NextVersion(VersionText(Digits(a, b, c)), kind, scheme) == VersionText(Digits(a, b, c))
  {
    PartsOfVersionText(a, b, c);
  }

  // ---------------------------------------------------------------------------
  // The version list
  // ---------------------------------------------------------------------------

  /** The fields of a release entry the versioner reads or sets. */
  datatype Entry = Entry(
    title: string, commitHash: string, version: string, versionId: string,
    environment: string, releaseChannel: string, status: string, breakingChanges: bool,
    createdBy: string, createdAt: string, rollbackAt: Option<string>, rollbackBy: Option<string>)

  /** The settings read from `versioner.json`. */
  datatype Config = Config(
    allowRollback: bool, startVersion: string, scheme: string, idPrefix: string,
    environment: string, releaseChannel: string, createdBy: string)

  datatype Commit = Commit(message: string, hash: string)

  /** `config.audit.createdBy || "System"`. */
  function Author(config: Config): string {
    if Truthy(config.createdBy) then config.createdBy else "System"
  }

  /** The title: the first line of the message, or a fixed text when it is empty. */
  function Title(message: string): string {
    var first := Split(message, "\n")[0];
    if Truthy(first) then first else "Auto bump version"
  }

  /** The newest release marked reverted. */
  function Reverted(e: Entry, now: string, who: string): Entry {
    e.(status := "reverted", rollbackAt := Some(now), rollbackBy := Some(who))
  }

  /** The entry of a normal bump. */
  function NewEntry(commit: Commit, config: Config, versions: seq<Entry>, now: string): (r: Entry)
    requires BumpType(commit.message) == Some(MajorBump) || BumpType(commit.message) == Some(PatchBump)
    ensures r.breakingChanges <==> BumpType(commit.message) == Some(MajorBump)
    ensures r.status == "pending" && r.rollbackAt.None?
  {
    var kind := BumpType(commit.message).value;
    var current := if |versions| > 0 then versions[0].version else config.startVersion;
    Entry(Title(commit.message), commit.hash, NextVersion(current, kind, config.scheme),
          GenerateVersionId(config.idPrefix, versions), config.environment, config.releaseChannel,
          "pending", Breaking(commit.message), Author(config), now, None, None)
  }

  /** What `updateJsonFile` returns; the first three are `null`. */
  datatype Outcome = Skipped | RollbackRefused | NothingToRollBack | RolledBack(entry: Entry) | Bumped(entry: Entry)

  /** `versions.json` as the list of entries it holds, newest first. */
  class VersionsFile {
    var versions: seq<Entry>

    constructor (stored: seq<Entry>)
      ensures versions == stored
    {
      versions := stored;
    }

    /** `updateJsonFile(commit)`. */
    method Update(commit: Commit, config: Config, now: string) returns (outcome: Outcome)
      modifies this
      ensures outcome.Skipped? <==> BumpType(commit.message).None?
      ensures outcome.RollbackRefused? <==> BumpType(commit.message) == Some(Rollback) && !config.allowRollback
      ensures outcome.NothingToRollBack? <==>
        BumpType(commit.message) == Some(Rollback) && config.allowRollback && |old(versions)| == 0
      ensures outcome.RolledBack? ==>
        && |old(versions)| > 0
        && outcome.entry == Reverted(old(versions)[0], now, Author(config))
        && versions == [outcome.entry] + old(versions)[1..]
      ensures outcome.Bumped? ==>
        && (BumpType(commit.message) == Some(MajorBump) || BumpType(commit.message) == Some(PatchBump))
        && outcome.entry == NewEntry(commit, config, old(versions), now)
        && versions == [outcome.entry] + old(versions)
      ensures !outcome.RolledBack? && !outcome.Bumped? ==> versions == old(versions)
    {
      var kind := BumpType(commit.message);
      if kind.None? {
        return Skipped;
      }
      if kind.value == Rollback {
        if !config.allowRollback {
          return RollbackRefused;
        }
        if |versions| == 0 {
          return NothingToRollBack;
        }
        var last := Reverted(versions[0], now, Author(config));
        versions := [last] + versions[1..];
        return RolledBack(last);
      }
      var entry := NewEntry(commit, config, versions, now);
      versions := [entry] + versions;
      return Bumped(entry);
    }
  }
}
