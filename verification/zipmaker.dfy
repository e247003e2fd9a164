/** The single-tier archiver (tools/scripts/zipmaker.py). It scans the Dev
    ledger for the last entry, suggests the last version with its final
    number raised by one, insists on a well-formed newer `X.Y.Z`, warns when
    the project holds no file, zips the project without `node_modules` and
    appends one entry to the ledger. The script works at module level on one
    ledger file; here the ledger is given as its lines and the run returns
    the lines it ends with. */
module ZipMaker {
  import opened Wrappers
  import opened Text
  import opened PyStr
  import opened Ledger
  import opened VersionCheck
  import ArchiveWalk
  import ZipCreatorManual

  /** `VERSION_TYPE`. */
  const Tier: string := "Dev"
  const Exclude: set<string> := {"node_modules"}
  /** `f"Apna_Store_{VERSION_TYPE}_Versions.md"`. */
  const LogName: string := "Apna_Store_" + Tier + "_Versions.md"

  /** The tiered archiver looks for ledgers whose names start with the project
      name, so it never picks up the ledger this script keeps. */
  lemma LedgerNotShared()
    ensures !ZipCreatorManual.IsLog(LogName)
  {
    assert LogName[..|Project|][4] != Project[4];
  }

  // ---------------------------------------------------------------------------
  // Scanning the ledger
  // ---------------------------------------------------------------------------

  /** The ledger's lines as the scan reads them: each one stripped. */
  function Stripped(lines: seq<string>): seq<string> {
    seq(|lines|, i requires 0 <= i < |lines| => Strip(lines[i]))
  }

  /** The scan: lines from the end, each stripped, the first that parses wins. */
  method ScanBack(lines: seq<string>) returns (last: Last)
    ensures last == Recover(Stripped(lines))
  {
    ghost var stripped := Stripped(lines);
    var i := |lines|;
    while i > 0
      invariant 0 <= i <= |lines|
      invariant forall j :: i <= j < |lines| ==> ParseFields(stripped[j]).None?
    {
      var line := Strip(lines[i - 1]);
      assert line == stripped[i - 1];
      var entry := ParseFields(line);
      if entry.Some? {
        RecoverAt(stripped, i - 1);
        return Unpack(entry.value);
      }
      i := i - 1;
    }
    RecoverNone(stripped);
    return NoLast;
  }

  /** Lines that start with `#` and end with a backtick or a letter come back
      unchanged from the strip, so what the script appends is scanned as written. */
  lemma StrippedAppended(lines: seq<string>, lastId: int, e: Entry)
    ensures Stripped(lines + Appended(lastId, Tier, e)) == Stripped(lines) + Appended(lastId, Tier, e)
  {
    EntryLineClean(e);
    StripCharsOfClean(Header(Tier), IsSpace);
    StripCharsOfClean("", IsSpace);
    StripCharsOfClean("---", IsSpace);
    var added := Appended(lastId, Tier, e);
    assert Stripped(added) == added;
    StrippedConcat(lines, added);
  }

  lemma EntryLineClean(e: Entry)
    ensures Strip(EntryLine(e)) == EntryLine(e)
  {
    var line := EntryLine(e);
    var fields := EntryFields(e);
    JoinStartsWith(fields, Sep);
    JoinEndsWith(fields, Sep);
    assert line[0] == fields[0][0] == '#';
    assert line[|line| - 1] == fields[5][|fields[5]| - 1] == '`';
    StripCharsOfClean(line, IsSpace);
  }

  lemma StrippedConcat(a: seq<string>, b: seq<string>)
    ensures Stripped(a + b) == Stripped(a) + Stripped(b)
  {
  }

  /** The appended entry is what the next scan finds. */
  lemma LedgerReadsBack(lines: seq<string>, lastId: int, now: Moment, lastVersion: string, version: string, note: string)
    requires lastId >= -1 && !Contains(lastVersion, Sep) && WellFormed(version)
    requires !Contains(note, Sep) && Quotable(note)
    ensures Recover(Stripped(lines + Appended(lastId, Tier, NewEntry(lastId + 1, now, lastVersion, version, note))))
         == Last(lastId + 1, "V" + version, note)
  {
    StrippedAppended(lines, lastId, NewEntry(lastId + 1, now, lastVersion, version, note));
    NewEntryReadsBack(Stripped(lines), lastId, Tier, now, lastVersion, version, note);
  }

  // ---------------------------------------------------------------------------
  // The version prompt
  // ---------------------------------------------------------------------------

  /** The default offered at the prompt: `auto_increment(last)` when there is
      a last version, empty otherwise; `None` when `auto_increment` exits. */
  function Suggestion(last: string): Option<string> {
    if last != "" then BumpLast(last) else Some("")
  }

  /** The numbers of the last version the answer must exceed. */
  function Previous(last: string): Option<seq<int>> {
    if last != "" then ParseVersion(LStrip(last, IsV)) else None
  }

  /** Whether an answer passes the checks of the prompt. */
  predicate Accepts(last: string, reply: Reply)
    requires Suggestion(last).Some?
  {
    Check(Strip(Answer(reply, Suggestion(last).value)), Previous(last)) == Accepted
  }

  datatype Failure = BadLastVersion | NoInput

  /** `get_valid_version(last)` against a sequence of answers: the first
      accepted answer, stripped, or why the program stops (`NoInput` when
      the answers run out). */
  function Session(last: string, replies: seq<Reply>): Result<string, Failure>
    decreases |replies|
  {
    match Suggestion(last)
    case None => Err(BadLastVersion)
    case Some(suggested) =>
      if |replies| == 0 then Err(NoInput)
      else
        var input := Strip(Answer(replies[0], suggested));
        if Check(input, Previous(last)) == Accepted then Ok(input)
        else Session(last, replies[1..])
  }

  /** The prompt stops on an unreadable last version; otherwise it returns
      an answer exactly when some answer passes the checks, and what it
      returns passes them. */
  lemma {:induction false} SessionOutcome(last: string, replies: seq<Reply>)
    ensures Session(last, replies) == Err(BadLastVersion) <==> Suggestion(last).None?
    ensures Suggestion(last).Some? ==>
      (Session(last, replies).Ok? <==> exists k :: 0 <= k < |replies| && Accepts(last, replies[k]))
    ensures Session(last, replies).Ok? ==> Check(Session(last, replies).value, Previous(last)) == Accepted
    decreases |replies|
  {
    if Suggestion(last).Some? && |replies| > 0 {
      SessionOutcome(last, replies[1..]);
      if !Accepts(last, replies[0]) {
        assert forall k :: 1 <= k < |replies| ==> replies[k] == replies[1..][k - 1];
        if exists k :: 0 <= k < |replies| && Accepts(last, replies[k]) {
          var k :| 0 <= k < |replies| && Accepts(last, replies[k]);
          assert k >= 1 && Accepts(last, replies[1..][k - 1]);
        }
      }
    }
  }

  /** `get_valid_version`: ask, check, and ask again until an answer passes. */
  method GetValidVersion(last: string, replies: seq<Reply>) returns (r: Result<string, Failure>)
    ensures r == Session(last, replies)
    ensures r.Ok? ==> Check(r.value, Previous(last)) == Accepted
  {
    SessionOutcome(last, replies);
    var rest := replies;
    while true
      invariant Session(last, replies) == Session(last, rest)
      decreases |rest|
    {
      var suggested := if last != "" then BumpLast(last) else Some("");
      if suggested.None? {
        return Err(BadLastVersion);
      }
      if rest == [] {
        return Err(NoInput);
      }
      var input := Strip(Answer(rest[0], suggested.value));
      if Check(input, Previous(last)) == Accepted {
        return Ok(input);
      }
      rest := rest[1..];
    }
  }

  /** After a patch number 9 the suggestion is the patch number 10, which the
      single-digit pattern of the prompt rejects. */
  lemma NineSuggestionRejected(a: nat, b: nat)
    ensures Suggestion("V" + Render([a, b, 9])) == Some(Render([a, b, 10]))
    ensures Check(Render([a, b, 10]), Previous("V" + Render([a, b, 9]))) == BadFormat
  {
    var clean := Render([a, b, 9]);
    var ver := "V" + clean;
    JoinStartsWith(RenderAll([a, b, 9]), ".");
    assert clean[0] == NatToString(a)[0];
    assert ver[1..] == clean;
    assert LStrip(clean, IsV) == clean;
    assert LStrip(ver, IsV) == clean;
    ParseRender([a, b, 9]);
    assert Bumped([a, b, 9]) == [a, b, 10];
    SplitRender([a, b, 10]);
    assert NatToString(10) == "10";
  }

  /** Taking the default after `a.b.9` never ends the prompt: only a typed
      version does. */
  lemma DefaultNeverAccepted(a: nat, b: nat, replies: seq<Reply>)
    requires forall k :: 0 <= k < |replies| ==> replies[k] == Accept
    ensures Session("V" + Render([a, b, 9]), replies) == Err(NoInput)
  {
    DefaultRejected(a, b);
    RejectedDefault("V" + Render([a, b, 9]), replies);
  }

  /** When the default fails the checks, answers that only take the default
      exhaust the prompt. */
  lemma {:induction false} RejectedDefault(last: string, replies: seq<Reply>)
    requires Suggestion(last).Some? && !Accepts(last, Accept)
    requires forall k :: 0 <= k < |replies| ==> replies[k] == Accept
    ensures Session(last, replies) == Err(NoInput)
    decreases |replies|
  {
    if |replies| > 0 {
      assert !Accepts(last, replies[0]);
      RejectedDefault(last, replies[1..]);
    }
  }

  lemma DefaultRejected(a: nat, b: nat)
    ensures Suggestion("V" + Render([a, b, 9])).Some?
    ensures !Accepts("V" + Render([a, b, 9]), Accept)
  {
    var last := "V" + Render([a, b, 9]);
    NineSuggestionRejected(a, b);
    var suggested := Render([a, b, 10]);
    SuggestionClean(a, b);
    assert Answer(Accept, Suggestion(last).value) == suggested;
    assert Check(suggested, Previous(last)) == BadFormat;
  }

  /** The suggestion after `a.b.9` has no surrounding whitespace. */
  lemma SuggestionClean(a: nat, b: nat)
    ensures Strip(Render([a, b, 10])) == Render([a, b, 10])
  {
    var parts := RenderAll([a, b, 10]);
    assert parts[1..][1..] == [parts[2]];
    assert Join(parts[1..], ".") == parts[1] + "." + parts[2];
    var suggested := parts[0] + "." + (parts[1] + "." + parts[2]);
    assert Render([a, b, 10]) == suggested;
    assert NatToString(10) == "10";
    assert suggested[0] == NatToString(a)[0];
    assert suggested[|suggested| - 1] == '0';
    StripCharsOfClean(suggested, IsSpace);
  }

  // ---------------------------------------------------------------------------
  // Note
  // ---------------------------------------------------------------------------

  /** `note_input[0].upper() + note_input[1:] if note_input else "NoNote"` on
      the stripped answer. */
  function Note(answer: string): string {
    var t := Strip(answer);
    if t != "" then [UpperChar(t[0])] + t[1..] else "NoNote"
  }

  /** The note is never empty and has no surrounding whitespace. A blank
      answer gives `NoNote`; otherwise the note is the trimmed answer with
      its first character in upper case and the rest untouched, so it
      differs from the answer in the case of its first letter at most. A
      note given as the answer comes back unchanged. */
  lemma NoteShape(answer: string)
    ensures var n := Note(answer);
      && n != "" && Strip(n) == n
      && (Strip(answer) == "" ==> n == "NoNote")
      && (Strip(answer) != "" ==>
            && |n| == |Strip(answer)| && n[0] == UpperChar(Strip(answer)[0])
            && n[1..] == Strip(answer)[1..] && Lower(n) == Lower(Strip(answer)))
      && Note(n) == n
  {
    var t := Strip(answer);
    var n := Note(answer);
    StripCharsEnds(answer, IsSpace);
    StripCharsOfClean(n, IsSpace);
    if t != "" {
      assert n[1..] == t[1..];
      assert Lower(n) == Lower(t) by {
        forall i | 0 <= i < |t| ensures Lower(n)[i] == Lower(t)[i] {
          if i > 0 {
            assert n[i] == t[i];
          }
        }
      }
    }
  }

  // ---------------------------------------------------------------------------
  // One run
  // ---------------------------------------------------------------------------

  /** What a run produced once a version was accepted: the note, whether
      the empty-project warning was given, the files visited for the zip,
      the entry and the ledger afterwards. */
  datatype Release = Release(note: string, emptyWarning: bool, visits: seq<ArchiveWalk.Visit>, entry: Entry, ledger: seq<string>)

  /** The script from the scan to the append. */
  method Run(lines: seq<string>, replies: seq<Reply>, noteAnswer: string, tree: seq<ArchiveWalk.Entry>, now: Moment)
    returns (scanned: Last, version: Result<string, Failure>, release: Option<Release>)
    ensures scanned == Recover(Stripped(lines))
    ensures version == Session(scanned.version, replies)
    ensures version.Ok? ==> Check(version.value, Previous(scanned.version)) == Accepted
    ensures release.Some? <==> version.Ok?
    ensures release.Some? ==>
      && release.value.note == Note(noteAnswer)
      && release.value.emptyWarning == (ArchiveWalk.CountFiles(tree) == 0)
      && release.value.visits == ArchiveWalk.Walk([], tree, Exclude)
      && release.value.entry == NewEntry(scanned.id + 1, now, scanned.version, version.value, release.value.note)
      && release.value.ledger == lines + Appended(scanned.id, Tier, release.value.entry)
    ensures release.Some? && release.value.emptyWarning ==> release.value.visits == []
  {
    scanned := ScanBack(lines);
    version := GetValidVersion(scanned.version, replies);
    if version.Err? {
      return scanned, version, None;
    }
    var note := Note(noteAnswer);
    var emptyWarning := ArchiveWalk.CountFiles(tree) == 0;
    if emptyWarning {
      ArchiveWalk.EmptyTreeWalk(tree, Exclude);
    }
    var visits := ArchiveWalk.Collect(tree, Exclude);
    var entry := NewEntry(scanned.id + 1, now, scanned.version, version.value, note);
    release := Some(Release(note, emptyWarning, visits, entry, lines + Appended(scanned.id, Tier, entry)));
  }
}
