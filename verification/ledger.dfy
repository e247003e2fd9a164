/** The markdown release ledger kept by the `# D###` archivers: one line per
    release, six fields separated by " >> ", all but the first wrapped in
    backticks, each entry followed by a `---` line. A ledger file is modelled
    as its sequence of lines, without line terminators. */
module Ledger {
  import opened Wrappers
  import opened Text
  import opened PyStr
  import opened LastMatch
  import opened VersionCheck

  const Sep: string := " >> "
  const Project: string := "ApnaStore"

  /** A field wrapped in backticks. */
  function Tick(s: string): string {
    "`" + s + "`"
  }

  predicate IsTick(c: char) {
    c == '`'
  }

  /** The characters of `lstrip("# D")`. */
  predicate IsIdPrefix(c: char) {
    c == '#' || c == ' ' || c == 'D'
  }

  /** `field.strip().strip("`")`. */
  function Unquote(field: string): string {
    StripChars(Strip(field), IsTick)
  }

  /** Text that comes back unchanged from `Unquote(Tick(_))`. */
  predicate Quotable(s: string) {
    s == [] || (!IsTick(s[0]) && !IsTick(s[|s| - 1]))
  }

  /** A point in local time. */
  datatype Moment = Moment(year: nat, month: nat, day: nat, hour: nat, minute: nat, second: nat)

  /** `now.strftime("%Y-%m-%d %H:%M:%S")`. */
  function Stamp(m: Moment): string {
    ZeroPad(m.year, 4) + "-" + ZeroPad(m.month, 2) + "-" + ZeroPad(m.day, 2) + " " +
    ZeroPad(m.hour, 2) + ":" + ZeroPad(m.minute, 2) + ":" + ZeroPad(m.second, 2)
  }

  /** The fields of one ledger line. */
  datatype Entry = Entry(id: int, stamp: string, folder: string, version: string, note: string, zip: string)

  /** ``# D{id:03} >> `stamp` >> `folder` >> `version` >> `note` >> `zip` ``. */
  function EntryLine(e: Entry): string {
    Join(EntryFields(e), Sep)
  }

  function EntryFields(e: Entry): seq<string> {
    ["# D" + ZeroPad(e.id, 3)] + Ticks([e.stamp, e.folder, e.version, e.note, e.zip])
  }

  function Ticks(raw: seq<string>): (r: seq<string>)
    ensures |r| == |raw| && forall i :: 0 <= i < |raw| ==> r[i] == Tick(raw[i])
  {
    seq(|raw|, i requires 0 <= i < |raw| => Tick(raw[i]))
  }

  /** What a scan of the ledger recovers: the last id, version and note
      (`0`, empty and empty when the ledger has no entry). */
  datatype Last = Last(id: int, version: string, note: string)

  const NoLast := Last(0, "", "")

  /** The id and the raw version and note fields of an entry line. */
  datatype Fields = Fields(id: int, versionField: string, noteField: string)

  /** One line of the scan: a line starting with `# D` with at least six
      fields whose first field reads as an integer after `lstrip("# D")`. */
  function ParseFields(line: string): Option<Fields> {
    if !StartsWith(line, "# D") then None
    else
      var parts := Split(line, Sep);
      if |parts| < 6 then None
      else
        match ParseInt(LStrip(parts[0], IsIdPrefix))
        case None => None
        case Some(id) => Some(Fields(id, parts[3], parts[4]))
  }

  /** The recovered values of an entry line's fields. */
  function Unpack(f: Fields): Last {
    Last(f.id, Unquote(f.versionField), Unquote(f.noteField))
  }

  /** What the scan makes of each line. */
  function Parsed(lines: seq<string>): seq<Option<Fields>> {
    seq(|lines|, i requires 0 <= i < |lines| => ParseFields(lines[i]))
  }

  /** The scan's result. */
  function Recover(lines: seq<string>): Last {
    match LastSome(Parsed(lines))
    case None => NoLast
    case Some(f) => Unpack(f)
  }

  /** The id the scan finds. */
  function LastId(lines: seq<string>): int {
    Recover(lines).id
  }

  /** The scan finds a line that parses when no later line does. */
  lemma RecoverAt(lines: seq<string>, k: nat)
    requires k < |lines| && ParseFields(lines[k]).Some?
    requires forall j :: k < j < |lines| ==> ParseFields(lines[j]).None?
    ensures Recover(lines) == Unpack(ParseFields(lines[k]).value)
  {
    LastSomeAt(Parsed(lines), k);
  }

  /** The scan finds nothing when no line parses. */
  lemma RecoverNone(lines: seq<string>)
    requires forall j :: 0 <= j < |lines| ==> ParseFields(lines[j]).None?
    ensures Recover(lines) == NoLast
  {
    LastSomeNone(Parsed(lines));
  }

  /** The heading written above the first entry of a ledger. */
  function Header(tier: string): string {
    "### " + Project + " " + tier + " Versions"
  }

  /** The lines the append writes: the heading and a blank line when no entry
      was recovered (`last_id == 0`), the entry, and `---`. */
  function Appended(lastId: int, tier: string, e: Entry): (r: seq<string>)
    ensures lastId == 0 ==> r == [Header(tier), "", EntryLine(e), "---"]
    ensures lastId != 0 ==> r == [EntryLine(e), "---"]
  {
    (if lastId == 0 then [Header(tier), ""] else []) + [EntryLine(e), "---"]
  }

  /** The folder field: the project name and the previous version. */
  function FolderLabel(lastVersion: string): string {
    if lastVersion != "" then Project + "_" + lastVersion else Project + "_V0.0.0"
  }

  /** The characters the zip-name sanitiser replaces by `_`: backslash,
      slash, star, question mark, colon, double quote, angle brackets, bar. */
  const Unsafe: set<char> := {'\\', '/', '*', '?', ':', '"', '<', '>', '|'}

  /** The note as it appears in the zip name: unsafe characters and then
      spaces replaced by `_`. */
  function SafeNote(note: string): (r: string)
    ensures |r| == |note|
    ensures forall i :: 0 <= i < |note| ==> (r[i] !in Unsafe && r[i] != ' ')
    ensures forall i :: 0 <= i < |note| ==> (note[i] !in Unsafe && note[i] != ' ' ==> r[i] == note[i])
  {
    ReplaceChars(ReplaceChars(note, Unsafe, '_'), {' '}, '_')
  }

  /** `f"{project}_V{version}_{safe_note}.zip"`. */
  function ZipName(project: string, version: string, note: string): string {
    project + "_V" + version + "_" + SafeNote(note) + ".zip"
  }

  // ---------------------------------------------------------------------------
  // Reading back what was written
  // ---------------------------------------------------------------------------

  lemma UnquoteTick(v: string)
    requires Quotable(v)
    ensures Unquote(Tick(v)) == v
  {
    var t := Tick(v);
    StripCharsOfClean(t, IsSpace);
    LStripTick(v);
    RStripTick(v);
  }

  lemma LStripTick(v: string)
    requires Quotable(v)
    ensures LStrip(Tick(v), IsTick) == if v == [] then [] else v + "`"
  {
    var t := Tick(v);
    assert t[1..] == v + "`";
    if v == [] {
      assert LStrip(t, IsTick) == LStrip(t[1..], IsTick);
      assert t[1..][1..] == [];
    }
  }

  lemma RStripTick(v: string)
    requires Quotable(v)
    ensures RStrip(if v == [] then [] else v + "`", IsTick) == v
  {
    if v != [] {
      assert (v + "`")[..|v|] == v;
    }
  }

  lemma TickAbsent(x: string)
    requires !Contains(x, Sep)
    ensures !Contains(Tick(x), Sep)
  {
    var t := Tick(x);
    ContainsIff(x, Sep);
    forall j | 0 <= j && j + |Sep| <= |t| ensures !OccursAt(t, Sep, j) {
      if j == 0 {
        assert t[j..j + |Sep|][0] == '`';
      } else if j + |Sep| == |t| {
        assert t[j..j + |Sep|][3] == '`';
      } else {
        assert t[j..j + |Sep|] == x[j - 1..j - 1 + |Sep|];
        assert !OccursAt(x, Sep, j - 1);
      }
    }
    ContainsIff(t, Sep);
  }

  /** Text behind a prefix without spaces keeps the separator out. */
  lemma PrefixedAbsent(prefix: string, x: string)
    requires forall i :: 0 <= i < |prefix| ==> prefix[i] != ' '
    requires !Contains(x, Sep)
    ensures !Contains(prefix + x, Sep)
  {
    var t := prefix + x;
    ContainsIff(x, Sep);
    forall j | 0 <= j && j + |Sep| <= |t| ensures !OccursAt(t, Sep, j) {
      if j < |prefix| {
        assert t[j] == prefix[j] && Sep[0] == ' ';
        assert t[j..j + |Sep|][0] != Sep[0];
      } else {
        var k := j - |prefix|;
        assert k + |Sep| <= |x|;
        assert t[j..j + |Sep|] == x[k..k + |Sep|];
        assert !OccursAt(x, Sep, k);
      }
    }
    ContainsIff(t, Sep);
  }

  lemma UnquoteAbsent(field: string)
    requires !Contains(field, Sep)
    ensures !Contains(Unquote(field), Sep)
  {
    var a := LStrip(field, IsSpace);
    LStripSpec(field, IsSpace);
    SuffixAbsent(field, a, Sep);
    var b := RStrip(a, IsSpace);
    RStripSpec(a, IsSpace);
    PrefixAbsent(a, b, Sep);
    var c := LStrip(b, IsTick);
    LStripSpec(b, IsTick);
    SuffixAbsent(b, c, Sep);
    RStripSpec(c, IsTick);
    PrefixAbsent(c, RStrip(c, IsTick), Sep);
  }

  /** A recovered version or note never contains the separator. */
  lemma RecoveredAbsent(lines: seq<string>)
    ensures !Contains(Recover(lines).version, Sep) && !Contains(Recover(lines).note, Sep)
  {
    var parsed := Parsed(lines);
    LastSomeIsLast(parsed);
    var found := LastSome(parsed);
    if found.Some? {
      var i :| 0 <= i < |lines| && parsed[i].Some? && found == parsed[i];
      var parts := Split(lines[i], Sep);
      assert |parts| >= 6 && found.value.versionField == parts[3] && found.value.noteField == parts[4];
      SplitPartsAbsent(lines[i], Sep);
      UnquoteAbsent(parts[3]);
      UnquoteAbsent(parts[4]);
    } else {
      AbsentChar("", Sep, 0);
    }
  }

  /** An entry line reads back when its id is not negative and none of its
      fields holds the separator. */
  predicate Writable(e: Entry) {
    e.id >= 0 && !Contains(e.stamp, Sep) && !Contains(e.folder, Sep) && !Contains(e.version, Sep)
    && !Contains(e.note, Sep) && !Contains(e.zip, Sep)
  }

  /** The id field: `# D` and at least three digits. */
  lemma IdField(id: nat)
    ensures var f := "# D" + ZeroPad(id, 3);
      && |f| >= 4 && IsDigit(f[|f| - 1]) && !Contains(f, Sep)
      && LStrip(f, IsIdPrefix) == ZeroPad(id, 3)
  {
    var digits := ZeroPad(id, 3);
    ZeroPaddedValue(NatToString(id), 3);
    IdFieldAbsent(digits);
    IdFieldStrip(digits);
  }

  lemma IdFieldAbsent(digits: string)
    requires AllDigits(digits)
    ensures !Contains("# D" + digits, Sep)
  {
    var f := "# D" + digits;
    forall i | 0 <= i < |f| ensures f[i] != '>' {
      if i >= 3 {
        assert f[i] == digits[i - 3];
      }
    }
    AbsentChar(f, Sep, 1);
  }

  lemma IdFieldStrip(digits: string)
    requires |digits| >= 1 && IsDigit(digits[0])
    ensures LStrip("# D" + digits, IsIdPrefix) == digits
  {
    var f := "# D" + digits;
    assert f[1..] == " D" + digits;
    assert f[1..][1..] == "D" + digits;
    assert f[1..][1..][1..] == digits;
    assert LStrip(f[1..][1..], IsIdPrefix) == LStrip(digits, IsIdPrefix) == digits;
  }

  lemma EntryFieldsSeparable(e: Entry)
    requires Writable(e)
    ensures Separable(EntryFields(e), Sep)
  {
    var first := "# D" + ZeroPad(e.id, 3);
    IdField(e.id);
    assert first[|first| - 1] !in Sep;
    FieldsSeparable(first, [e.stamp, e.folder, e.version, e.note, e.zip]);
  }

  /** A first field ending in a character of no separator, followed by
      backtick-wrapped fields, none holding the separator. */
  lemma FieldsSeparable(first: string, raw: seq<string>)
    requires |first| >= 1 && first[|first| - 1] !in Sep && !Contains(first, Sep)
    requires forall i :: 0 <= i < |raw| ==> !Contains(raw[i], Sep)
    ensures Separable([first] + Ticks(raw), Sep)
  {
    var f := [first] + Ticks(raw);
    forall i | 0 <= i < |f| ensures !Contains(f[i], Sep) {
      if i > 0 {
        TickAbsent(raw[i - 1]);
      }
    }
    forall i | 0 <= i < |f| - 1 ensures CleanBoundary(f[i], Sep, f[i + 1]) {
      assert f[i + 1] == Tick(raw[i]);
      if i > 0 {
        assert f[i] == Tick(raw[i - 1]);
      }
    }
  }

  lemma SplitEntryLine(e: Entry)
    requires Writable(e)
    ensures Split(EntryLine(e), Sep) == EntryFields(e)
  {
    EntryFieldsSeparable(e);
    SplitJoin(EntryFields(e), Sep);
  }

  /** The scan reads an entry line back: its id, version and note. */
  lemma ParseEntryLine(e: Entry)
    requires Writable(e)
    ensures ParseFields(EntryLine(e)) == Some(Fields(e.id, Tick(e.version), Tick(e.note)))
  {
    var line := EntryLine(e);
    var f := EntryFields(e);
    SplitEntryLine(e);
    JoinStartsWith(f, Sep);
    IdField(e.id);
    assert StartsWith(line, "# D") by {
      assert line[..|f[0]|] == f[0];
      assert line[..3] == f[0][..3];
    }
    ParseIntOfZeroPad(e.id, 3);
  }

  /** After an append, the scan recovers the appended entry. */
  lemma RecoverAppended(lines: seq<string>, lastId: int, tier: string, e: Entry)
    requires Writable(e) && Quotable(e.version) && Quotable(e.note)
    ensures Recover(lines + Appended(lastId, tier, e)) == Last(e.id, e.version, e.note)
  {
    var all := lines + Appended(lastId, tier, e);
    var n := |all|;
    assert all[n - 1] == "---";
    assert all[n - 2] == EntryLine(e);
    ParseEntryLine(e);
    assert !StartsWith("---", "# D");
    RecoverAt(all, n - 2);
    UnquoteTick(e.version);
    UnquoteTick(e.note);
  }

  // ---------------------------------------------------------------------------
  // Fields the archivers write
  // ---------------------------------------------------------------------------

  /** The time stamp holds digits and `-`, ` `, `:` only. */
  lemma StampAbsent(m: Moment)
    ensures forall i :: 0 <= i < |Stamp(m)| ==> Stamp(m)[i] != '>'
    ensures !Contains(Stamp(m), Sep)
  {
    ZeroPaddedValue(NatToString(m.year), 4);
    ZeroPaddedValue(NatToString(m.month), 2);
    ZeroPaddedValue(NatToString(m.day), 2);
    ZeroPaddedValue(NatToString(m.hour), 2);
    ZeroPaddedValue(NatToString(m.minute), 2);
    ZeroPaddedValue(NatToString(m.second), 2);
    var s := Stamp(m);
    assert forall i :: 0 <= i < |s| ==> s[i] != '>';
    AbsentChar(s, Sep, 1);
  }

  lemma FolderAbsent(lastVersion: string)
    requires !Contains(lastVersion, Sep)
    ensures !Contains(FolderLabel(lastVersion), Sep)
  {
    if lastVersion != "" {
      PrefixedAbsent(Project + "_", lastVersion);
    } else {
      var s := FolderLabel(lastVersion);
      assert forall i :: 0 <= i < |s| ==> s[i] != '>';
      AbsentChar(s, Sep, 1);
    }
  }

  /** Read back from the ledger, the folder field gives the project name,
      `_`, and then the previous version, or `V0.0.0` when there was none. */
  lemma FolderLabelReadsBack(lastVersion: string)
    requires Quotable(lastVersion)
    ensures var r := Unquote(Tick(FolderLabel(lastVersion)));
      && |r| > |Project| + 1 && r[..|Project| + 1] == Project + "_"
      && r[|Project| + 1..] == if lastVersion != "" then lastVersion else "V0.0.0"
  {
    var field := FolderLabel(lastVersion);
    assert field[0] == 'A';
    assert field[|field| - 1] == if lastVersion != "" then lastVersion[|lastVersion| - 1] else '0';
    UnquoteTick(field);
  }

  /** The zip name has no `>` once the version has none. */
  lemma ZipNameAbsent(project: string, version: string, note: string)
    requires forall i :: 0 <= i < |project| ==> project[i] != '>'
    requires forall i :: 0 <= i < |version| ==> version[i] != '>'
    ensures !Contains(ZipName(project, version, note), Sep)
  {
    var s := ZipName(project, version, note);
    var safe := SafeNote(note);
    assert forall i :: 0 <= i < |safe| ==> safe[i] != '>';
    assert forall i :: 0 <= i < |s| ==> s[i] != '>';
    AbsentChar(s, Sep, 1);
  }

  // ---------------------------------------------------------------------------
  // The entry of a run
  // ---------------------------------------------------------------------------

  /** The entry a run appends: its id, the time, the folder named after the
      last version, the new version with its `V`, the note and the zip name. */
  function NewEntry(id: int, now: Moment, lastVersion: string, version: string, note: string): Entry {
    Entry(id, Stamp(now), FolderLabel(lastVersion), "V" + version, note, ZipName(Project, version, note))
  }

  lemma ProjectChars()
    ensures forall i :: 0 <= i < |Project| ==> Project[i] != '>'
  {
  }

  /** The version field `V` + version of a well-formed version. */
  lemma VersionField(version: string)
    requires WellFormed(version)
    ensures forall i :: 0 <= i < |version| ==> version[i] != '>'
    ensures !Contains("V" + version, Sep) && Quotable("V" + version)
  {
    WellFormedChars(version);
    var v := "V" + version;
    assert forall i :: 1 <= i < |v| ==> v[i] == version[i - 1];
    AbsentChar(v, Sep, 1);
    assert IsDigit(v[|v| - 1]);
  }

  /** The entry of a run reads back when the recovered last version holds no
      separator (as `RecoveredAbsent` shows it never does), the version passed
      the checks, and the note holds no `" >> "` and neither starts nor ends
      with a backtick. */
  lemma NewEntryWritable(id: int, now: Moment, lastVersion: string, version: string, note: string)
    requires id >= 0 && !Contains(lastVersion, Sep) && WellFormed(version)
    requires !Contains(note, Sep) && Quotable(note)
    ensures var e := NewEntry(id, now, lastVersion, version, note);
      Writable(e) && Quotable(e.version) && Quotable(e.note)
  {
    StampAbsent(now);
    FolderAbsent(lastVersion);
    VersionField(version);
    ProjectChars();
    ZipNameAbsent(Project, version, note);
  }

  /** Appending the entry of a run, numbered one past `lastId`, and scanning
      again gives back its id, version and note. */
  lemma NewEntryReadsBack(lines: seq<string>, lastId: int, tier: string, now: Moment,
                          lastVersion: string, version: string, note: string)
    requires lastId >= -1 && !Contains(lastVersion, Sep) && WellFormed(version)
    requires !Contains(note, Sep) && Quotable(note)
    ensures Recover(lines + Appended(lastId, tier, NewEntry(lastId + 1, now, lastVersion, version, note)))
         == Last(lastId + 1, "V" + version, note)
  {
    NewEntryWritable(lastId + 1, now, lastVersion, version, note);
    RecoverAppended(lines, lastId, tier, NewEntry(lastId + 1, now, lastVersion, version, note));
  }
}
