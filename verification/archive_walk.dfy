/** The exclusion walk the three archiver scripts share: `os.walk` over the
    project top-down, the list of subdirectories pruned in place
    (`dirs[:] = [d for d in dirs if d not in EXCLUDE]`), files whose name is
    excluded skipped, and every other file written to the zip under its path
    relative to the project root. A file that cannot be read is reported and
    left out of the zip. Paths are sequences of names; the scripts join them
    with the platform separator. */
module ArchiveWalk {

  /** An entry of a directory listing. A directory that cannot be listed is
      one with no entries (`os.walk` skips it silently). */
  datatype Entry =
    | File(name: string, readable: bool)
    | Dir(name: string, entries: seq<Entry>)

  type Path = seq<string>

  /** A file the walk reached, and whether it could be written to the zip. */
  datatype Visit = Visit(path: Path, written: bool)

  /** A directory the walk still has to enter. */
  datatype Pending = Pending(prefix: Path, entries: seq<Entry>)

  // ---------------------------------------------------------------------------
  // The walk, defined on the tree
  // ---------------------------------------------------------------------------

  function Size(e: Entry): nat {
    match e
    case File(_, _) => 1
    case Dir(_, entries) => 1 + SizeAll(entries)
  }

  function SizeAll(entries: seq<Entry>): nat
    decreases entries
  {
    if |entries| == 0 then 0 else SizeAll(entries[..|entries| - 1]) + Size(entries[|entries| - 1])
  }

  function PendingSize(stack: seq<Pending>): nat {
    if |stack| == 0 then 0 else 1 + SizeAll(stack[0].entries) + PendingSize(stack[1..])
  }

  /** The files of one directory listing that are not excluded, in listing order. */
  function FilesOf(prefix: Path, entries: seq<Entry>, exclude: set<string>): seq<Visit> {
    if |entries| == 0 then []
    else
      var e := entries[|entries| - 1];
      FilesOf(prefix, entries[..|entries| - 1], exclude) +
      (if e.File? && e.name !in exclude then [Visit(prefix + [e.name], e.readable)] else [])
  }

  /** The subdirectories of one directory listing that survive the pruning. */
  function Children(prefix: Path, entries: seq<Entry>, exclude: set<string>): (r: seq<Pending>)
    ensures PendingSize(r) <= SizeAll(entries)
    decreases entries
  {
    if |entries| == 0 then []
    else
      var e := entries[|entries| - 1];
      var front := Children(prefix, entries[..|entries| - 1], exclude);
      if e.Dir? && e.name !in exclude then
        var r := front + [Pending(prefix + [e.name], e.entries)];
        PendingSizeAppend(front, [Pending(prefix + [e.name], e.entries)]);
        r
      else front
  }

  /** Top-down order: the files of a directory, then each kept subdirectory
      in listing order, each walked completely before the next. */
  function Walk(prefix: Path, entries: seq<Entry>, exclude: set<string>): seq<Visit>
    decreases SizeAll(entries), 1
  {
    FilesOf(prefix, entries, exclude) + WalkAll(Children(prefix, entries, exclude), exclude)
  }

  function WalkAll(stack: seq<Pending>, exclude: set<string>): seq<Visit>
    decreases PendingSize(stack), 0
  {
    if |stack| == 0 then []
    else Walk(stack[0].prefix, stack[0].entries, exclude) + WalkAll(stack[1..], exclude)
  }

  /** The paths written to the zip. */
  function Written(visits: seq<Visit>): (r: seq<Path>)
    ensures forall p :: p in r <==> Visit(p, true) in visits
  {
    if |visits| == 0 then []
    else (if visits[0].written then [visits[0].path] else []) + Written(visits[1..])
  }

  lemma {:induction false} PendingSizeAppend(a: seq<Pending>, b: seq<Pending>)
    ensures PendingSize(a + b) == PendingSize(a) + PendingSize(b)
    decreases |a|
  {
    if |a| > 0 {
      assert (a + b)[1..] == a[1..] + b;
      PendingSizeAppend(a[1..], b);
    } else {
      assert a + b == b;
    }
  }

  lemma {:induction false} WalkAllAppend(a: seq<Pending>, b: seq<Pending>, exclude: set<string>)
    ensures WalkAll(a + b, exclude) == WalkAll(a, exclude) + WalkAll(b, exclude)
    decreases |a|
  {
    if |a| > 0 {
      assert (a + b)[1..] == a[1..] + b;
      WalkAllAppend(a[1..], b, exclude);
    } else {
      assert a + b == b;
    }
  }

  // ---------------------------------------------------------------------------
  // The walk as the scripts run it
  // ---------------------------------------------------------------------------

  /** One directory as the loop body sees it: the files it writes (those
      whose name is not excluded) and the subdirectories it keeps. */
  method ListDirectory(current: Pending, exclude: set<string>) returns (files: seq<Visit>, kids: seq<Pending>)
    ensures files == FilesOf(current.prefix, current.entries, exclude)
    ensures kids == Children(current.prefix, current.entries, exclude)
  {
    files, kids := [], [];
    var i := 0;
    while i < |current.entries|
      invariant 0 <= i <= |current.entries|
      invariant files == FilesOf(current.prefix, current.entries[..i], exclude)
      invariant kids == Children(current.prefix, current.entries[..i], exclude)
    {
      var e := current.entries[i];
      assert current.entries[..i + 1][..i] == current.entries[..i];
      if e.File? && e.name !in exclude {
        files := files + [Visit(current.prefix + [e.name], e.readable)];
      } else if e.Dir? && e.name !in exclude {
        kids := kids + [Pending(current.prefix + [e.name], e.entries)];
      }
      i := i + 1;
    }
    assert current.entries[..i] == current.entries;
  }

  /** The zip loop: `os.walk` hands over one directory at a time, the loop
      prunes its subdirectories and writes its files. Returns every file
      reached, in order, with whether it was written. */
  method Collect(root: seq<Entry>, exclude: set<string>) returns (visits: seq<Visit>)
    ensures visits == Walk([], root, exclude)
  {
    visits := [];
    var stack := [Pending([], root)];
    assert WalkAll(stack, exclude) == Walk([], root, exclude) + WalkAll([], exclude);
    while |stack| > 0
      invariant visits + WalkAll(stack, exclude) == Walk([], root, exclude)
      decreases PendingSize(stack)
    {
      var files, kids := ListDirectory(stack[0], exclude);
      WalkStep(stack, exclude);
      visits := visits + files;
      stack := kids + stack[1..];
    }
  }

  /** Entering the first pending directory: its files come first, then its
      kept subdirectories ahead of the rest of the stack. */
  lemma WalkStep(stack: seq<Pending>, exclude: set<string>)
    requires |stack| > 0
    ensures var kids := Children(stack[0].prefix, stack[0].entries, exclude);
      && WalkAll(stack, exclude)
         == FilesOf(stack[0].prefix, stack[0].entries, exclude) + WalkAll(kids + stack[1..], exclude)
      && PendingSize(kids + stack[1..]) < PendingSize(stack)
  {
    var kids := Children(stack[0].prefix, stack[0].entries, exclude);
    var files := FilesOf(stack[0].prefix, stack[0].entries, exclude);
    WalkAllAppend(kids, stack[1..], exclude);
    PendingSizeAppend(kids, stack[1..]);
    assert WalkAll(stack, exclude) == files + WalkAll(kids, exclude) + WalkAll(stack[1..], exclude);
  }

  // ---------------------------------------------------------------------------
  // What the walk reaches
  // ---------------------------------------------------------------------------

  /** There is a file at `path` below `entries` (its readability is `readable`). */
  predicate FileAt(entries: seq<Entry>, path: Path, readable: bool)
    decreases entries
  {
    |path| >= 1 &&
    exists i :: 0 <= i < |entries| && entries[i].name == path[0] &&
      match entries[i]
      case File(_, r) => |path| == 1 && r == readable
      case Dir(_, sub) => FileAt(sub, path[1..], readable)
  }

  predicate NoneExcluded(path: Path, exclude: set<string>) {
    forall i :: 0 <= i < |path| ==> path[i] !in exclude
  }

  lemma {:induction false} FilesOfSound(prefix: Path, entries: seq<Entry>, exclude: set<string>, v: Visit)
    requires v in FilesOf(prefix, entries, exclude)
    ensures exists i :: (0 <= i < |entries| && entries[i].File? && entries[i].name !in exclude
                         && v == Visit(prefix + [entries[i].name], entries[i].readable))
    decreases |entries|
  {
    var n := |entries|;
    var e := entries[n - 1];
    if e.File? && e.name !in exclude && v == Visit(prefix + [e.name], e.readable) {
    } else {
      FilesOfSound(prefix, entries[..n - 1], exclude, v);
      var i :| 0 <= i < n - 1 && entries[..n - 1][i].File? && entries[..n - 1][i].name !in exclude
        && v == Visit(prefix + [entries[..n - 1][i].name], entries[..n - 1][i].readable);
      assert entries[i] == entries[..n - 1][i];
    }
  }

  lemma {:induction false} ChildrenSound(prefix: Path, entries: seq<Entry>, exclude: set<string>, p: Pending)
    requires p in Children(prefix, entries, exclude)
    ensures exists i :: (0 <= i < |entries| && entries[i].Dir? && entries[i].name !in exclude
                         && p == Pending(prefix + [entries[i].name], entries[i].entries))
    decreases |entries|
  {
    var n := |entries|;
    var e := entries[n - 1];
    if e.Dir? && e.name !in exclude && p == Pending(prefix + [e.name], e.entries) {
    } else {
      ChildrenSound(prefix, entries[..n - 1], exclude, p);
      var i :| 0 <= i < n - 1 && entries[..n - 1][i].Dir? && entries[..n - 1][i].name !in exclude
        && p == Pending(prefix + [entries[..n - 1][i].name], entries[..n - 1][i].entries);
      assert entries[i] == entries[..n - 1][i];
    }
  }

  /** Everything the walk reaches is a file of the tree, none of whose path
      components (directories on the way, or the file's own name) is excluded. */
  lemma {:induction false} WalkSound(prefix: Path, entries: seq<Entry>, exclude: set<string>, v: Visit)
    requires v in Walk(prefix, entries, exclude)
    ensures |v.path| > |prefix| && v.path[..|prefix|] == prefix
    ensures NoneExcluded(v.path[|prefix|..], exclude)
    ensures FileAt(entries, v.path[|prefix|..], v.written)
    decreases SizeAll(entries), 1
  {
    if v in FilesOf(prefix, entries, exclude) {
      FilesOfSound(prefix, entries, exclude, v);
      var i :| 0 <= i < |entries| && entries[i].File? && entries[i].name !in exclude
        && v == Visit(prefix + [entries[i].name], entries[i].readable);
      assert v.path[|prefix|..] == [entries[i].name];
    } else {
      WalkAllSound(Children(prefix, entries, exclude), exclude, v, prefix, entries);
    }
  }

  lemma {:induction false} WalkAllSound(stack: seq<Pending>, exclude: set<string>, v: Visit,
                                        prefix: Path, entries: seq<Entry>)
    requires stack == Children(prefix, entries, exclude)
    requires v in WalkAll(stack, exclude)
    ensures |v.path| > |prefix| && v.path[..|prefix|] == prefix
    ensures NoneExcluded(v.path[|prefix|..], exclude)
    ensures FileAt(entries, v.path[|prefix|..], v.written)
    decreases PendingSize(stack), 0
  {
    WalkIndexExists(stack, exclude, v);
    var k :| 0 <= k < |stack| && v in Walk(stack[k].prefix, stack[k].entries, exclude);
    var p := stack[k];
    ChildrenSound(prefix, entries, exclude, p);
    var i :| 0 <= i < |entries| && entries[i].Dir? && entries[i].name !in exclude
      && p == Pending(prefix + [entries[i].name], entries[i].entries);
    PendingSizeAt(stack, k);
    assert SizeAll(p.entries) < Size(entries[i]);
    SizeAllAt(entries, i);
    WalkSound(p.prefix, p.entries, exclude, v);
    DescendOne(prefix, entries, i, exclude, v);
  }

  /** A file found below a kept subdirectory is found below its parent. */
  lemma DescendOne(prefix: Path, entries: seq<Entry>, i: nat, exclude: set<string>, v: Visit)
    requires i < |entries| && entries[i].Dir? && entries[i].name !in exclude
    requires var q := prefix + [entries[i].name];
      |v.path| > |q| && v.path[..|q|] == q && NoneExcluded(v.path[|q|..], exclude)
      && FileAt(entries[i].entries, v.path[|q|..], v.written)
    ensures |v.path| > |prefix| && v.path[..|prefix|] == prefix
    ensures NoneExcluded(v.path[|prefix|..], exclude)
    ensures FileAt(entries, v.path[|prefix|..], v.written)
  {
    var q := prefix + [entries[i].name];
    var rest := v.path[|q|..];
    assert v.path[..|prefix|] == q[..|prefix|] == prefix;
    var tail := v.path[|prefix|..];
    assert tail == [entries[i].name] + rest;
    assert tail[1..] == rest;
    assert tail[0] == entries[i].name;
    forall j | 0 <= j < |tail| ensures tail[j] !in exclude {
      if j > 0 {
        assert tail[j] == rest[j - 1];
      }
    }
  }

  /** Which stacked directory a reached file came from. */
  lemma {:induction false} WalkIndexExists(stack: seq<Pending>, exclude: set<string>, v: Visit)
    requires v in WalkAll(stack, exclude)
    ensures exists k :: 0 <= k < |stack| && v in Walk(stack[k].prefix, stack[k].entries, exclude)
    decreases |stack|
  {
    if v !in Walk(stack[0].prefix, stack[0].entries, exclude) {
      WalkIndexExists(stack[1..], exclude, v);
      var k :| 0 <= k < |stack| - 1 && v in Walk(stack[1..][k].prefix, stack[1..][k].entries, exclude);
      assert stack[k + 1] == stack[1..][k];
    }
  }

  lemma {:induction false} PendingSizeAt(stack: seq<Pending>, k: nat)
    requires k < |stack|
    ensures SizeAll(stack[k].entries) < PendingSize(stack)
    decreases k
  {
    if k > 0 {
      PendingSizeAt(stack[1..], k - 1);
    }
  }

  lemma {:induction false} SizeAllAt(entries: seq<Entry>, i: nat)
    requires i < |entries|
    ensures Size(entries[i]) <= SizeAll(entries)
    decreases |entries|
  {
    if i < |entries| - 1 {
      SizeAllAt(entries[..|entries| - 1], i);
    }
  }

  /** Every file of the tree whose path has no excluded component is reached,
      and is written when it is readable. */
  lemma {:induction false} WalkComplete(prefix: Path, entries: seq<Entry>, exclude: set<string>,
                                        path: Path, readable: bool)
    requires FileAt(entries, path, readable) && NoneExcluded(path, exclude)
    ensures Visit(prefix + path, readable) in Walk(prefix, entries, exclude)
    decreases SizeAll(entries)
  {
    var i :| 0 <= i < |entries| && entries[i].name == path[0] &&
      match entries[i]
      case File(_, r) => |path| == 1 && r == readable
      case Dir(_, sub) => FileAt(sub, path[1..], readable);
    assert path[0] !in exclude;
    match entries[i]
    case File(name, r) =>
      FilesOfComplete(prefix, entries, exclude, i);
      assert path == [name];
    case Dir(name, sub) =>
      var p := Pending(prefix + [name], sub);
      ChildrenComplete(prefix, entries, exclude, i);
      var stack := Children(prefix, entries, exclude);
      SizeAllAt(entries, i);
      NoneExcludedTail(path, exclude);
      WalkComplete(prefix + [name], sub, exclude, path[1..], readable);
      JoinHead(prefix, path);
      WalkAllHas(stack, exclude, p, Visit(prefix + path, readable));
  }

  lemma NoneExcludedTail(path: Path, exclude: set<string>)
    requires |path| >= 1 && NoneExcluded(path, exclude)
    ensures NoneExcluded(path[1..], exclude)
  {
    forall j | 0 <= j < |path| - 1 ensures path[1..][j] !in exclude {
      assert path[1..][j] == path[j + 1];
    }
  }

  lemma JoinHead(prefix: Path, path: Path)
    requires |path| >= 1
    ensures prefix + [path[0]] + path[1..] == prefix + path
  {
    assert [path[0]] + path[1..] == path;
  }

  lemma {:induction false} WalkAllHas(stack: seq<Pending>, exclude: set<string>, p: Pending, v: Visit)
    requires p in stack && v in Walk(p.prefix, p.entries, exclude)
    ensures v in WalkAll(stack, exclude)
    decreases |stack|
  {
    if stack[0] != p {
      WalkAllHas(stack[1..], exclude, p, v);
    }
  }

  lemma {:induction false} FilesOfComplete(prefix: Path, entries: seq<Entry>, exclude: set<string>, i: nat)
    requires i < |entries| && entries[i].File? && entries[i].name !in exclude
    ensures Visit(prefix + [entries[i].name], entries[i].readable) in FilesOf(prefix, entries, exclude)
    decreases |entries|
  {
    if i < |entries| - 1 {
      FilesOfComplete(prefix, entries[..|entries| - 1], exclude, i);
    }
  }

  lemma {:induction false} ChildrenComplete(prefix: Path, entries: seq<Entry>, exclude: set<string>, i: nat)
    requires i < |entries| && entries[i].Dir? && entries[i].name !in exclude
    ensures Pending(prefix + [entries[i].name], entries[i].entries) in Children(prefix, entries, exclude)
    decreases |entries|
  {
    if i < |entries| - 1 {
      ChildrenComplete(prefix, entries[..|entries| - 1], exclude, i);
    }
  }

  // ---------------------------------------------------------------------------
  // Counting files (no pruning)
  // ---------------------------------------------------------------------------

  /** `sum(len(files) for _, _, files in os.walk(root))`: every file of the
      tree, excluded directories included. */
  function CountFiles(entries: seq<Entry>): nat
    decreases entries
  {
    if |entries| == 0 then 0
    else
      CountFiles(entries[..|entries| - 1]) +
      match entries[|entries| - 1]
      case File(_, _) => 1
      case Dir(_, sub) => CountFiles(sub)
  }

  /** A file somewhere in the tree is counted. */
  lemma {:induction false} FileCounted(entries: seq<Entry>, path: Path, readable: bool)
    requires FileAt(entries, path, readable)
    ensures CountFiles(entries) > 0
    decreases entries
  {
    var i :| 0 <= i < |entries| && entries[i].name == path[0] &&
      match entries[i]
      case File(_, r) => |path| == 1 && r == readable
      case Dir(_, sub) => FileAt(sub, path[1..], readable);
    CountAt(entries, i);
    if entries[i].Dir? {
      FileCounted(entries[i].entries, path[1..], readable);
    }
  }

  /** Each entry's files are among the files counted for the whole list. */
  lemma {:induction false} CountAt(entries: seq<Entry>, i: nat)
    requires i < |entries|
    ensures entries[i].File? ==> CountFiles(entries) >= 1
    ensures entries[i].Dir? ==> CountFiles(entries) >= CountFiles(entries[i].entries)
    decreases |entries|
  {
    if i < |entries| - 1 {
      CountAt(entries[..|entries| - 1], i);
    }
  }

  /** When the count finds no file, the walk visits nothing: an archive with
      no file is always preceded by the empty-folder warning. */
  lemma EmptyTreeWalk(entries: seq<Entry>, exclude: set<string>)
    requires CountFiles(entries) == 0
    ensures Walk([], entries, exclude) == []
  {
    if Walk([], entries, exclude) != [] {
      var v := Walk([], entries, exclude)[0];
      WalkSound([], entries, exclude, v);
      FileCounted(entries, v.path[0..], v.written);
    }
  }
}
