/** The first archiver (makezip.py). It keeps a single ledger of numbered
    lines without heading or separators, suggests the last version with its
    final number raised by one, takes the operator's version without
    checking it, zips the project without `node_modules` and appends one
    line to the ledger. A ledger line reads
    ``{id}. `stamp` >> `folder` >> `version` >> `note` >> `zip` ``. */
module MakeZip {
  import opened Wrappers
  import opened Text
  import opened PyStr
  import opened LastMatch
  import opened Ledger
  import opened VersionCheck
  import ArchiveWalk
  import ZipMaker

  const Exclude: set<string> := {"node_modules"}
  const LogFile: string := "Apna_Store_Version_Logs.md"

  // ---------------------------------------------------------------------------
  // Ledger lines
  // ---------------------------------------------------------------------------

  function LogFields(e: Entry): seq<string> {
    [IntToString(e.id) + ". " + Tick(e.stamp)] + Ticks([e.folder, e.version, e.note, e.zip])
  }

  /** The line appended for an entry. */
  function LogLine(e: Entry): string {
    Join(LogFields(e), Sep)
  }

  predicate IsStar(c: char) {
    c == '*'
  }

  /** As written: the note is read with `strip('*')`, which leaves the
      backticks it was written with. */
  function NoteFieldAsWritten(field: string): string {
    StripChars(field, IsStar)
  }

  /** Corrected: the note field loses the backticks it was written with, as
      the version field does. */
  function NoteField(field: string): string {
    StripChars(field, IsTick)
  }

  /** How the note field is read: as the script does, or corrected. */
  datatype NoteReading = AsWritten | Corrected

  function ReadNote(field: string, reading: NoteReading): string {
    match reading
    case AsWritten => NoteFieldAsWritten(field)
    case Corrected => NoteField(field)
  }

  /** One line of the scan: at least five fields, the text before the first
      `.` reading as an integer. Gives the id and the raw version and note
      fields. */
  function ParseLine(line: string): Option<Fields> {
    var parts := Split(Strip(line), Sep);
    if |parts| < 5 then None
    else
      match ParseInt(Split(parts[0], ".")[0])
      case None => None
      case Some(id) => Some(Fields(id, parts[2], parts[3]))
  }

  function Parsed(lines: seq<string>): seq<Option<Fields>> {
    seq(|lines|, i requires 0 <= i < |lines| => ParseLine(lines[i]))
  }

  /** The id, the version without its backticks and the note as `reading`
      reads it. */
  function Read(f: Fields, reading: NoteReading): Last {
    Last(f.id, StripChars(f.versionField, IsTick), ReadNote(f.noteField, reading))
  }

  /** The scan's result: the last line that parses, or no id, version and
      note. */
  function Recover(lines: seq<string>, reading: NoteReading): Last {
    match LastSome(Parsed(lines))
    case None => NoLast
    case Some(f) => Read(f, reading)
  }

  /** The scan as the script runs it: lines from the end, the first that
      parses wins, and the note keeps its backticks. */
  method ScanBack(lines: seq<string>) returns (last: Last)
    ensures last == Recover(lines, AsWritten)
  {
    var i := |lines|;
    while i > 0
      invariant 0 <= i <= |lines|
      invariant forall j :: i <= j < |lines| ==> Parsed(lines)[j].None?
    {
      var found := ParseLine(lines[i - 1]);
      if found.Some? {
        LastSomeAt(Parsed(lines), i - 1);
        return Read(found.value, AsWritten);
      }
      i := i - 1;
    }
    LastSomeNone(Parsed(lines));
    return NoLast;
  }

  /** The two readings differ in the note only: they find the same line, so
      the same id and version, and reading the recovered note as written a
      second time changes nothing. */
  lemma ReadingsAgree(lines: seq<string>)
    ensures Recover(lines, AsWritten).id == Recover(lines, Corrected).id
    ensures Recover(lines, AsWritten).version == Recover(lines, Corrected).version
    ensures Recover(lines, AsWritten).note == ReadNote(Recover(lines, AsWritten).note, AsWritten)
  {
    var found := LastSome(Parsed(lines));
    if found.Some? {
      StripStable(found.value.noteField);
    }
  }

  /** `strip('*')` does nothing more the second time. */
  lemma StripStable(field: string)
    ensures NoteFieldAsWritten(NoteFieldAsWritten(field)) == NoteFieldAsWritten(field)
  {
    StripCharsEnds(field, IsStar);
    StripCharsOfClean(StripChars(field, IsStar), IsStar);
  }

  // ---------------------------------------------------------------------------
  // Reading a line back
  // ---------------------------------------------------------------------------

  /** The first field: the id and the time stamp. */
  lemma IdStampField(id: int, stamp: string)
    requires forall i :: 0 <= i < |stamp| ==> stamp[i] != '>'
    ensures var f := IntToString(id) + ". " + Tick(stamp);
      && |f| >= 1 && f[|f| - 1] == '`' && !Contains(f, Sep)
      && ParseInt(Split(f, ".")[0]) == Some(id)
  {
    var f := IntToString(id) + ". " + Tick(stamp);
    assert f == IntToString(id) + "." + (" " + Tick(stamp));
    IdBeforeDot(id, " " + Tick(stamp));
    IdStampAbsent(id, stamp);
  }

  /** The text before the first dot is the id. */
  lemma IdBeforeDot(id: int, rest: string)
    ensures ParseInt(Split(IntToString(id) + "." + rest, ".")[0]) == Some(id)
  {
    var digits := IntToString(id);
    var s := digits + "." + rest;
    NoDotInNumber(id);
    FindAfterPart(digits, ".", rest);
    assert s[..|digits|] == digits;
    assert Split(s, ".")[0] == digits;
    ParseIntOfString(id);
  }

  lemma IdStampAbsent(id: int, stamp: string)
    requires forall i :: 0 <= i < |stamp| ==> stamp[i] != '>'
    ensures !Contains(IntToString(id) + ". " + Tick(stamp), Sep)
  {
    var f := IntToString(id) + ". " + Tick(stamp);
    var d := NatToString(if id < 0 then -id else id);
    assert forall i :: 0 <= i < |d| ==> IsDigit(d[i]);
    var n := |IntToString(id)|;
    forall i | 0 <= i < |f| ensures f[i] != '>' {
      if n + 3 <= i < n + 3 + |stamp| {
        assert f[i] == stamp[i - n - 3];
      } else if i < n {
        assert f[i] == IntToString(id)[i];
      }
    }
    AbsentChar(f, Sep, 1);
  }

  /** Fields that hold no separator, and a stamp without `>`. */
  predicate Loggable(e: Entry) {
    && (forall i :: 0 <= i < |e.stamp| ==> e.stamp[i] != '>')
    && !Contains(e.folder, Sep) && !Contains(e.version, Sep) && !Contains(e.note, Sep) && !Contains(e.zip, Sep)
  }

  lemma SplitLogLine(e: Entry)
    requires Loggable(e)
    ensures Split(LogLine(e), Sep) == LogFields(e)
  {
    var first := IntToString(e.id) + ". " + Tick(e.stamp);
    IdStampField(e.id, e.stamp);
    FieldsSeparable(first, [e.folder, e.version, e.note, e.zip]);
    SplitJoin(LogFields(e), Sep);
  }

  /** A ledger line starts with the id and ends with a backtick, so the
      strip of the scan leaves it alone. */
  lemma LogLineClean(e: Entry)
    ensures Strip(LogLine(e)) == LogLine(e)
  {
    var line := LogLine(e);
    var fields := LogFields(e);
    JoinEndsWith(fields, Sep);
    JoinStartsWith(fields, Sep);
    assert line[|line| - 1] == fields[4][|fields[4]| - 1] == '`';
    var d := NatToString(if e.id < 0 then -e.id else e.id);
    assert IsDigit(d[0]);
    assert line[0] == fields[0][0] == IntToString(e.id)[0];
    StripCharsOfClean(line, IsSpace);
  }

  /** A line whose fields hold no separator and whose version neither starts
      nor ends with a backtick parses back to its id and version, whatever the
      id. As written the note comes back in its backticks; the corrected
      reading gives back the note when it neither starts nor ends with one. */
  lemma ParseLogLine(e: Entry)
    requires Loggable(e) && Quotable(e.version)
    ensures ParseLine(LogLine(e)) == Some(Fields(e.id, Tick(e.version), Tick(e.note)))
    ensures Read(ParseLine(LogLine(e)).value, AsWritten) == Last(e.id, e.version, Tick(e.note))
    ensures Quotable(e.note) ==> Read(ParseLine(LogLine(e)).value, Corrected) == Last(e.id, e.version, e.note)
  {
    LogLineParts(e);
    ParseLineOf(LogLine(e), e.id, Tick(e.version), Tick(e.note));
    LStripTick(e.version);
    RStripTick(e.version);
    NoteReadAsWritten(e.note);
  }

  /** The scan's view of a written line: five fields, the id before the
      first dot, then the version and the note in backticks. */
  lemma LogLineParts(e: Entry)
    requires Loggable(e)
    ensures var parts := Split(Strip(LogLine(e)), Sep);
      && |parts| == 5 && parts[2] == Tick(e.version) && parts[3] == Tick(e.note)
      && ParseInt(Split(parts[0], ".")[0]) == Some(e.id)
  {
    LogLineClean(e);
    SplitLogLine(e);
    IdStampField(e.id, e.stamp);
  }

  lemma ParseLineOf(line: string, id: int, versionField: string, noteField: string)
    requires var parts := Split(Strip(line), Sep);
      && |parts| >= 5 && parts[2] == versionField && parts[3] == noteField
      && ParseInt(Split(parts[0], ".")[0]) == Some(id)
    ensures ParseLine(line) == Some(Fields(id, versionField, noteField))
  {
  }

  /** As written, `strip('*')` leaves the backticks the note was written
      with, so the note read back is never the note written; the corrected
      reading gives it back. */
  lemma NoteReadAsWritten(note: string)
    ensures NoteFieldAsWritten(Tick(note)) == Tick(note) != note
    ensures Quotable(note) ==> NoteField(Tick(note)) == note
  {
    StripCharsOfClean(Tick(note), IsStar);
    if Quotable(note) {
      LStripTick(note);
      RStripTick(note);
    }
  }

  /** After an append the scan recovers the appended id and version, and the
      note in its backticks as written, or the note itself when corrected. */
  lemma LogReadsBack(lines: seq<string>, e: Entry)
    requires Loggable(e) && Quotable(e.version)
    ensures Recover(lines + [LogLine(e)], AsWritten) == Last(e.id, e.version, Tick(e.note))
    ensures Quotable(e.note) ==> Recover(lines + [LogLine(e)], Corrected) == Last(e.id, e.version, e.note)
  {
    ParseLogLine(e);
    var all := lines + [LogLine(e)];
    LastSomeAt(Parsed(all), |all| - 1);
  }

  // ---------------------------------------------------------------------------
  // Folder name
  // ---------------------------------------------------------------------------

  /** `\d+\.\d+\.\d+` matches at the start of `t`. */
  predicate TagBody(t: string) {
    exists j :: 0 < j <= |t| && TripleNumber(t[..j])
  }

  predicate TripleNumber(u: string) {
    var p := Split(u, ".");
    |p| == 3 && |p[0]| >= 1 && AllDigits(p[0]) && |p[1]| >= 1 && AllDigits(p[1]) && |p[2]| >= 1 && AllDigits(p[2])
  }

  /** `re.search(r'_V\d+\.\d+\.\d+', name)`. */
  predicate HasVersionTag(name: string) {
    exists i :: 0 <= i < |name| - 1 && name[i] == '_' && name[i + 1] == 'V' && TagBody(name[i + 2..])
  }

  /** The folder field: the project name, followed by the last version when
      there is one and the project name carries no version tag. */
  function Folder(last: string): string {
    if last != "" && !HasVersionTag(Project) then Project + "_" + last else Project
  }

  /** The project name carries no tag, so the folder field always names the
      last version when there is one. */
  lemma FolderNamesLast(last: string)
    ensures Folder(last) == if last != "" then Project + "_" + last else Project
  {
    assert forall i :: 0 <= i < |Project| ==> Project[i] != '_';
  }

  /** A recovered version never contains the separator. */
  lemma RecoveredAbsent(lines: seq<string>)
    ensures !Contains(Recover(lines, AsWritten).version, Sep)
  {
    var parsed := Parsed(lines);
    LastSomeIsLast(parsed);
    var found := LastSome(parsed);
    if found.Some? {
      var i :| 0 <= i < |lines| && parsed[i].Some? && found == parsed[i];
      var parts := Split(Strip(lines[i]), Sep);
      assert |parts| >= 5 && found.value.versionField == parts[2];
      SplitPartsAbsent(Strip(lines[i]), Sep);
      var l := LStrip(parts[2], IsTick);
      LStripSpec(parts[2], IsTick);
      SuffixAbsent(parts[2], l, Sep);
      RStripSpec(l, IsTick);
      PrefixAbsent(l, RStrip(l, IsTick), Sep);
    } else {
      AbsentChar("", Sep, 0);
    }
  }

  /** The entry of a run reads back when the last version holds no separator
      (as `RecoveredAbsent` shows it never does), the typed version holds no
      `>` and does not end with a backtick, and the note holds no separator.
      The next run, as written, finds the note in its backticks; the
      corrected reading finds the note itself when it neither starts nor ends
      with a backtick. */
  lemma NextEntryReadsBack(lines: seq<string>, scanned: Last, now: Moment, version: string, note: string)
    requires !Contains(scanned.version, Sep)
    requires (forall i :: 0 <= i < |version| ==> version[i] != '>') && Quotable(version)
    requires !Contains(note, Sep)
    ensures Recover(lines + [LogLine(NextEntry(scanned, now, version, note))], AsWritten)
         == Last(scanned.id + 1, "V" + version, Tick(note))
    ensures Quotable(note) ==>
      Recover(lines + [LogLine(NextEntry(scanned, now, version, note))], Corrected)
      == Last(scanned.id + 1, "V" + version, note)
  {
    NextEntryLoggable(scanned, now, version, note);
    LogReadsBack(lines, NextEntry(scanned, now, version, note));
  }

  lemma NextEntryLoggable(scanned: Last, now: Moment, version: string, note: string)
    requires !Contains(scanned.version, Sep)
    requires (forall i :: 0 <= i < |version| ==> version[i] != '>') && Quotable(version)
    requires !Contains(note, Sep)
    ensures var e := NextEntry(scanned, now, version, note);
      Loggable(e) && Quotable(e.version) && e.note == note
  {
    StampAbsent(now);
    FolderAbsent(scanned.version);
    VersionAbsent(version);
    ProjectChars();
    ZipNameAbsent(Project, version, note);
  }

  lemma FolderAbsent(last: string)
    requires !Contains(last, Sep)
    ensures !Contains(Folder(last), Sep)
  {
    FolderNamesLast(last);
    if last != "" {
      PrefixedAbsent(Project + "_", last);
    } else {
      AbsentChar(Project, Sep, 1);
    }
  }

  lemma VersionAbsent(version: string)
    requires (forall i :: 0 <= i < |version| ==> version[i] != '>') && Quotable(version)
    ensures !Contains("V" + version, Sep) && Quotable("V" + version)
  {
    var v := "V" + version;
    assert forall i :: 1 <= i < |v| ==> v[i] == version[i - 1];
    AbsentChar(v, Sep, 1);
  }

  // ---------------------------------------------------------------------------
  // Zipping
  // ---------------------------------------------------------------------------

  /** The paths the zip loop writes before the first file it cannot read,
      and that file; the unhandled error ends the script there. */
  function Archived(visits: seq<ArchiveWalk.Visit>): (seq<ArchiveWalk.Path>, Option<ArchiveWalk.Path>) {
    if |visits| == 0 then ([], None)
    else if !visits[0].written then ([], Some(visits[0].path))
    else
      var rest := Archived(visits[1..]);
      ([visits[0].path] + rest.0, rest.1)
  }

  /** The loop stops exactly when some file cannot be read, at the first
      such file; when it does not stop, every visited file was written. */
  lemma {:induction false} ArchivedSound(visits: seq<ArchiveWalk.Visit>)
    ensures Archived(visits).1.None? <==> forall k :: 0 <= k < |visits| ==> visits[k].written
    ensures Archived(visits).1.None? ==> Archived(visits).0 == ArchiveWalk.Written(visits)
    ensures Archived(visits).1.Some? ==>
      var k := |Archived(visits).0|;
      && k < |visits| && visits[k] == ArchiveWalk.Visit(Archived(visits).1.value, false)
      && forall j :: 0 <= j < k ==> visits[j].written && Archived(visits).0[j] == visits[j].path
    decreases |visits|
  {
    if |visits| > 0 {
      ArchivedSound(visits[1..]);
      assert forall k :: 1 <= k < |visits| ==> visits[k] == visits[1..][k - 1];
    }
  }

  /** The zip loop over the visited files. */
  method ZipAll(visits: seq<ArchiveWalk.Visit>) returns (written: seq<ArchiveWalk.Path>, failed: Option<ArchiveWalk.Path>)
    ensures (written, failed) == Archived(visits)
  {
    written := [];
    var rest := visits;
    assert Archived(visits).0 == written + Archived(rest).0;
    while rest != []
      invariant Archived(visits).0 == written + Archived(rest).0
      invariant Archived(visits).1 == Archived(rest).1
      decreases |rest|
    {
      if !rest[0].written {
        assert written + Archived(rest).0 == written;
        return written, Some(rest[0].path);
      }
      assert written + Archived(rest).0 == (written + [rest[0].path]) + Archived(rest[1..]).0;
      written := written + [rest[0].path];
      rest := rest[1..];
    }
    assert written + Archived(rest).0 == written;
    return written, None;
  }

  // ---------------------------------------------------------------------------
  // One run
  // ---------------------------------------------------------------------------

  /** Why the script stops before appending to the ledger. */
  datatype Failure = BadLastVersion | Unreadable(path: ArchiveWalk.Path)

  /** What a run produced: the entry and the ledger afterwards. */
  datatype Release = Release(written: seq<ArchiveWalk.Path>, entry: Entry, ledger: seq<string>)

  /** The version typed or accepted at the prompt; `None` when the last
      version cannot be read and `auto_increment` raises. */
  function Version(last: string, reply: Reply): Option<string> {
    if last != "" then
      match BumpLast(last)
      case None => None
      case Some(suggested) => Some(Strip(Answer(reply, suggested)))
    else Some(Strip(Answer(reply, "")))
  }

  /** The entry a run appends. */
  function NextEntry(scanned: Last, now: Moment, version: string, note: string): Entry {
    Entry(scanned.id + 1, Stamp(now), Folder(scanned.version), "V" + version, note, ZipName(Project, version, note))
  }

  /** The script from the scan to the append. */
  method Run(lines: seq<string>, reply: Reply, noteAnswer: string, tree: seq<ArchiveWalk.Entry>, now: Moment)
    returns (scanned: Last, outcome: Result<Release, Failure>)
    ensures scanned == Recover(lines, AsWritten)
    ensures outcome == Err(BadLastVersion) <==> Version(scanned.version, reply).None?
    ensures outcome.Err? && outcome.error.Unreadable? ==>
      ArchiveWalk.Visit(outcome.error.path, false) in ArchiveWalk.Walk([], tree, Exclude)
    ensures outcome.Ok? ==>
      var version := Version(scanned.version, reply).value;
      && outcome.value.written == ArchiveWalk.Written(ArchiveWalk.Walk([], tree, Exclude))
      && outcome.value.entry == NextEntry(scanned, now, version, ZipMaker.Note(noteAnswer))
      && outcome.value.ledger == lines + [LogLine(outcome.value.entry)]
  {
    scanned := ScanBack(lines);
    var version := Version(scanned.version, reply);
    if version.None? {
      return scanned, Err(BadLastVersion);
    }
    var note := ZipMaker.Note(noteAnswer);
    var visits := ArchiveWalk.Collect(tree, Exclude);
    var written, failed := ZipAll(visits);
    ArchivedSound(visits);
    if failed.Some? {
      return scanned, Err(Unreadable(failed.value));
    }
    var entry := NextEntry(scanned, now, version.value, note);
    outcome := Ok(Release(written, entry, lines + [LogLine(entry)]));
  }
}
