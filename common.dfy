/** The transfer ledger shared by both plug-ins: the staging directory, the
    two list files, the staging-directory guard, the safe purge and removal. */
module Common {
  import opened Text
  import opened Paths
  import opened Files
  import opened ListStore

  /** `tempfile.gettempdir()`, a fixed existing absolute directory. */
  const TempRoot: Key := ["tmp"]
  /** `TEMP_PATH`, the staging directory. */
  const TempPath: Key := TempRoot + ["houdini_blender"]
  /** `BLEND_IMPORT_FILE`: written by Houdini, read by Blender. */
  const BlendImportFile: Key := TempPath + ["blend_import"]
  /** `HOU_IMPORT_FILE`: written by Blender, read by Houdini. */
  const HouImportFile: Key := TempPath + ["hou_import"]

  predicate IsHexDigit(c: char) {
    '0' <= c <= '9' || 'a' <= c <= 'f'
  }

  /** `uuid1().hex`: 32 lower-case hexadecimal digits. */
  predicate IsHex32(h: string) {
    |h| == 32 && forall i :: 0 <= i < |h| ==> IsHexDigit(h[i])
  }

  /** A file name an exporter may stage: one component the kernel accepts,
      never "..", without NUL, and one line that `strip()` leaves alone once
      it follows the directory. */
  predicate StageableName(f: string) {
    && IsPart(f) && f != ".." && NameFits(f) && '\0' !in f
    && '\n' !in f && '\r' !in f && !IsSpace(f[|f| - 1])
  }


  lemma StagedEntryText(f: string)
    ensures EntryFor(TempPath + [f]) == "/tmp/houdini_blender/" + f
  {
    var parts := TempPath + [f];
    assert parts == ["tmp", "houdini_blender", f];
    assert parts[1..] == ["houdini_blender", f];
    assert parts[1..][1..] == [f];
    assert Join(parts[1..][1..]) == f;
    assert Join(parts[1..]) == "houdini_blender" + "/" + f;
    assert Join(parts) == "tmp" + "/" + ("houdini_blender" + "/" + f);
  }

  /** The staging directory lies directly in the temp root, and the two list
      files are distinct names directly in the staging directory, spelled
      "/tmp/houdini_blender/blend_import" and "/tmp/houdini_blender/hou_import". */
  lemma LedgerLocations()
    ensures Up(TempPath) == TempRoot && TempPath != TempRoot
    ensures Up(BlendImportFile) == TempPath && Up(HouImportFile) == TempPath
    ensures BlendImportFile != HouImportFile
    ensures EntryFor(BlendImportFile) == "/tmp/houdini_blender/blend_import"
    ensures EntryFor(HouImportFile) == "/tmp/houdini_blender/hou_import"
  {
    StagedEntryText("blend_import");
    StagedEntryText("hou_import");
  }

  /** The entry recorded for a staged file can be written on one line. */
  lemma StagedEntryWritable(f: string)
    requires StageableName(f)
    ensures Writable(EntryFor(TempPath + [f]))
  {
    StagedEntryText(f);
    var lit := "/tmp/houdini_blender/";
    var e := lit + f;
    assert '\n' !in lit && '\r' !in lit;
    assert '\n' !in e && '\r' !in e;
    assert e[0] == '/' && e[|e| - 1] == f[|f| - 1];
  }

  /** The entry recorded for a staged file is a path string the OS accepts:
      shorter than `PATH_MAX` and without NUL. */
  lemma StagedEntryEncodable(f: string)
    requires StageableName(f)
    ensures PathFits(EntryFor(TempPath + [f]))
    ensures !HasNul(PurePath("/", TempPath + [f]))
  {
    StagedEntryText(f);
    StagingPrefix(f);
  }

  lemma StagingPrefix(f: string)
    requires NameFits(f) && '\0' !in f
    ensures PathFits("/tmp/houdini_blender/" + f)
    ensures '\0' !in "/tmp/houdini_blender/" + f
  {
    Utf8LengthBound(f);
  }

  /** The entry recorded for a file staged in the staging directory survives
      the line round trip, parses back to the file's location, lies under
      the temp root, and is a path string the OS accepts. */
  lemma StagedEntry(f: string)
    requires StageableName(f)
    ensures Writable(EntryFor(TempPath + [f]))
    ensures Parse(EntryFor(TempPath + [f])) == PurePath("/", TempPath + [f])
    ensures UnderTempRoot(PurePath("/", TempPath + [f]))
    ensures PathFits(EntryFor(TempPath + [f])) && !HasNul(PurePath("/", TempPath + [f]))
  {
    var parts := TempPath + [f];
    StagedEntryWritable(f);
    StagedEntryEncodable(f);
    assert parts == ["tmp", "houdini_blender", f];
    assert IsPart(parts[0]) && IsPart(parts[1]) && IsPart(parts[2]);
    ParseFormat(parts);
    UnderTempRootIff(PurePath("/", parts));
  }

  /** A staged entry names an existing path exactly when its file exists,
      and `exists()` never raises for it. */
  lemma StagedEntryExists(m: map<Key, Node>, cwd: Key, f: string)
    requires WellFormed(m) && StageableName(f)
    ensures ExistsAt(m, cwd, EntryFor(TempPath + [f])) <==> TempPath + [f] in m
    ensures !ExistsRaises(m, cwd, EntryFor(TempPath + [f]))
  {
    var k := TempPath + [f];
    StagedKeyParts(f);
    StagedEntryEncodable(f);
    EntryForExists(m, cwd, k);
  }

  /** The components of a staged file's location are all names the kernel
      accepts, and none is "..". */
  lemma StagedKeyParts(f: string)
    requires StageableName(f)
    ensures ".." !in TempPath + [f]
    ensures forall i :: 0 <= i < |TempPath + [f]| ==> IsPart((TempPath + [f])[i]) && NameFits((TempPath + [f])[i])
  {
    var k := TempPath + [f];
    assert k == ["tmp", "houdini_blender", f];
    assert NameFits(k[0]) && NameFits(k[1]) && NameFits(k[2]);
    assert IsPart(k[0]) && IsPart(k[1]) && IsPart(k[2]);
  }

  // ---------------------------------------------------------------------
  // Staging-directory guard: temp_path_exists

  datatype GuardResult = GuardResult(ready: bool, entries: map<Key, Node>)

  /** What `temp_path_exists(path)` returns and leaves behind. */
  function Guard(m: map<Key, Node>, path: Key): GuardResult {
    if path in m then GuardResult(m[path] == Dir, m)
    else GuardResult(true, m[path := Dir])
  }

  /** `temp_path_exists`: creates one missing directory level, accepts an
      existing directory, and refuses (without touching it) a plain file. */
  method TempPathExists(fs: FileSystem, path: Key) returns (ready: bool)
    requires fs.Valid()
    requires path !in fs.entries ==> Up(path) in fs.entries && fs.entries[Up(path)] == Dir
    requires path != [] && NameFits(path[|path| - 1])
    modifies fs
    ensures fs.Valid()
    ensures GuardResult(ready, fs.entries) == Guard(old(fs.entries), path)
    ensures old(path !in fs.entries) ==> ready && fs.entries == old(fs.entries)[path := Dir]
    ensures old(path in fs.entries) ==> fs.entries == old(fs.entries) && (ready <==> old(fs.entries[path]) == Dir)
  {
    if path in fs.entries {
      ready := fs.entries[path] == Dir;
    } else {
      fs.Mkdir(path);
      ready := true;
    }
  }

  /** The guard's three cases: a missing path becomes exactly one new
      directory; a directory is accepted as it is; a plain file is refused and
      kept with its contents. */
  lemma GuardCases(m: map<Key, Node>, path: Key)
    ensures path !in m ==> Guard(m, path).ready && Guard(m, path).entries == m[path := Dir]
    ensures path in m && m[path] == Dir ==> Guard(m, path) == GuardResult(true, m)
    ensures path in m && m[path].File? ==> Guard(m, path) == GuardResult(false, m)
  {
  }

  /** Calling the guard twice has the effect of calling it once. */
  lemma GuardIdempotent(m: map<Key, Node>, path: Key)
    ensures Guard(Guard(m, path).entries, path).entries == Guard(m, path).entries
    ensures Guard(Guard(m, path).entries, path).ready == Guard(m, path).ready
  {
  }

  // ---------------------------------------------------------------------
  // Safe purge: purge_old_files

  /** The safeguard: `PurePath(tempfile.gettempdir()) in pure_path.parents`. */
  predicate UnderTempRoot(p: PurePath) {
    PurePath("/", TempRoot) in Parents(p)
  }

  /** The safeguard is a purely lexical test: the path is anchored at "/" and
      the temp root's components are a proper prefix of its own. */
  lemma UnderTempRootIff(p: PurePath)
    ensures UnderTempRoot(p) <==>
      p.root == "/" && |TempRoot| < |p.parts| && p.parts[..|TempRoot|] == TempRoot
  {
    ParentsIff(p, PurePath("/", TempRoot));
  }

  /** Lines the safeguard always refuses: blank ones, relative paths, paths
      under the "//" anchor, the temp root itself, and anything whose leading
      components are not the temp root's. */
  lemma SafeguardRefuses(line: string)
    ensures Strip(line) == "" ==> !UnderTempRoot(Parse(Strip(line)))
    ensures Parse(Strip(line)).root != "/" ==> !UnderTempRoot(Parse(Strip(line)))
    ensures Parse(Strip(line)) == PurePath("/", TempRoot) ==> !UnderTempRoot(Parse(Strip(line)))
    ensures var parts := Parse(Strip(line)).parts;
      (|parts| <= |TempRoot| || parts[..|TempRoot|] != TempRoot) ==> !UnderTempRoot(Parse(Strip(line)))
  {
    UnderTempRootIff(Parse(Strip(line)));
  }

  datatype PurgeOutcome =
    | Purged                // returns True
    | PurgeListIsDirectory  // returns False
    | PurgeUnlinkFailed     // unlink raised: IsADirectoryError, NotADirectoryError,
                            // OSError(ENAMETOOLONG) or ValueError for a NUL

  datatype PurgeState = PurgeState(entries: map<Key, Node>, raised: bool)

  /** `PurePath(line.strip())` for every line of a list file's text. */
  function Targets(text: string): (ps: seq<PurePath>)
    ensures |ps| == |ReadEntries(text)|
  {
    var entries := ReadEntries(text);
    seq(|entries|, i requires 0 <= i < |entries| => Parse(entries[i]))
  }

  /** The target of the `i`-th line read from `text`. */
  lemma TargetsAt(text: string, i: nat)
    requires i < |ReadLines(Translate(text))|
    ensures |Targets(text)| == |ReadLines(Translate(text))|
    ensures Targets(text)[i] == Parse(Strip(ReadLines(Translate(text))[i]))
  {
  }

  /** The purge would unlink `k` for target `p`: `p` passes the safeguard and
      the OS finds `k` under it. */
  predicate Names(m: map<Key, Node>, p: PurePath, k: Key) {
    UnderTempRoot(p) && Resolve(m, [], p) == Found(k)
  }

  /** One iteration of the purge loop: `Path(pure_path).unlink(missing_ok=True)`
      when `pure_path` passes the safeguard. `missing_ok` only silences
      FileNotFoundError: a missing file is skipped, while a NUL in the path,
      a name or path too long, a lookup through a plain file or a directory
      raises. (An accepted path is absolute, so the working directory plays
      no part.) */
  function UnlinkListed(m: map<Key, Node>, p: PurePath): PurgeState {
    if !UnderTempRoot(p) then PurgeState(m, false)
    else if HasNul(p) then PurgeState(m, true)
    else
      match Resolve(m, [], p)
      case NoEntry => PurgeState(m, false)
      case NotDir => PurgeState(m, true)
      case TooLong => PurgeState(m, true)
      case Found(k) =>
        if k !in m then PurgeState(m, false)
        else if m[k] == Dir then PurgeState(m, true)
        else PurgeState(m - {k}, false)
  }

  /** The purge loop over the targets, stopping at the first exception. */
  function PurgeLines(m: map<Key, Node>, ps: seq<PurePath>): PurgeState
    decreases |ps|
  {
    if ps == [] then PurgeState(m, false)
    else
      var s := PurgeLines(m, ps[..|ps| - 1]);
      if s.raised then s else UnlinkListed(s.entries, ps[|ps| - 1])
  }

  datatype PurgeResult = PurgeResult(outcome: PurgeOutcome, entries: map<Key, Node>)

  /** What `purge_old_files(list)` returns and leaves behind. */
  function Purge(m: map<Key, Node>, list: Key): PurgeResult {
    if list !in m then PurgeResult(Purged, m)
    else if m[list] == Dir then PurgeResult(PurgeListIsDirectory, m)
    else
      var s := PurgeLines(m, Targets(m[list].contents));
      PurgeResult(if s.raised then PurgeUnlinkFailed else Purged, s.entries)
  }

  /** Once an unlink has raised, later lines are never reached. */
  lemma {:induction false} RaisedSticks(m: map<Key, Node>, ps: seq<PurePath>, j: nat)
    requires j <= |ps|
    requires PurgeLines(m, ps[..j]).raised
    ensures PurgeLines(m, ps) == PurgeLines(m, ps[..j])
    decreases |ps| - j
  {
    if j < |ps| {
      var init := ps[..|ps| - 1];
      assert init[..j] == ps[..j];
      RaisedSticks(m, init, j);
    } else {
      assert ps[..j] == ps;
    }
  }

  /** `purge_old_files`. */
  method PurgeOldFiles(fs: FileSystem, path: Key) returns (outcome: PurgeOutcome)
    requires fs.Valid()
    modifies fs
    ensures fs.Valid()
    ensures PurgeResult(outcome, fs.entries) == Purge(old(fs.entries), path)
  {
    if path !in fs.entries {
      return Purged;
    }
    if fs.entries[path] == Dir {
      return PurgeListIsDirectory;
    }
    ghost var m0 := fs.entries;
    ghost var text := fs.entries[path].contents;
    ghost var targets := Targets(text);
    var lines := ReadLines(Translate(fs.entries[path].contents));
    assert |lines| == |targets|;
    var i := 0;
    while i < |lines|
      invariant 0 <= i <= |lines|
      invariant fs.Valid()
      invariant PurgeLines(m0, targets[..i]) == PurgeState(fs.entries, false)
    {
      var p := Parse(Strip(lines[i]));
      TargetsAt(text, i);
      PurgeLinesLast(m0, targets, i + 1);
      var raised := UnlinkIfUnderTempRoot(fs, p);
      if raised {
        RaisedSticks(m0, targets, i + 1);
        return PurgeUnlinkFailed;
      }
      i := i + 1;
    }
    assert targets[..|lines|] == targets;
    return Purged;
  }

  /** The body of the purge loop for one parsed line. */
  method UnlinkIfUnderTempRoot(fs: FileSystem, p: PurePath) returns (raised: bool)
    requires fs.Valid()
    modifies fs
    ensures fs.Valid()
    ensures PurgeState(fs.entries, raised) == UnlinkListed(old(fs.entries), p)
  {
    raised := false;
    if UnderTempRoot(p) {
      var loc := Resolve(fs.entries, [], p);
      if HasNul(p) || loc.NotDir? || loc.TooLong? {
        raised := true;
      } else if loc.Found? && loc.key in fs.entries {
        if fs.entries[loc.key] == Dir {
          raised := true;
        } else {
          fs.Unlink(loc.key);
        }
      }
    }
  }

  /** A line naming a file in the staging directory whose name is longer
      than `NAME_MAX` makes the step raise (ENAMETOOLONG from `unlink`),
      rather than count as a missing file. */
  lemma LongNameRaises(m: map<Key, Node>, f: string)
    requires TempRoot in m && m[TempRoot] == Dir && TempPath in m && m[TempPath] == Dir
    requires f != ".." && !NameFits(f)
    ensures UnderTempRoot(PurePath("/", TempPath + [f]))
    ensures UnlinkListed(m, PurePath("/", TempPath + [f])).raised
  {
    var p := PurePath("/", TempPath + [f]);
    UnderTempRootIff(p);
    assert p.parts == ["tmp", "houdini_blender", f];
    if !HasNul(p) && PathFits(Format(p)) {
      assert Walk(m, TempPath, [f]) == TooLong;
      assert Walk(m, TempRoot, ["houdini_blender", f]) == Walk(m, TempPath, [f]);
      assert [] + [p.parts[0]] == TempRoot && p.parts[1..] == ["houdini_blender", f];
      assert Walk(m, [], p.parts) == Walk(m, TempRoot, ["houdini_blender", f]);
    }
  }

  /** One purge step keeps the frame: it removes at most one plain file, and
      only one the target names. */
  lemma UnlinkListedFrame(m: map<Key, Node>, n: map<Key, Node>, p: PurePath)
    requires FilesRemoved(m, n)
    ensures FilesRemoved(m, UnlinkListed(n, p).entries)
    ensures forall k :: k in n && k !in UnlinkListed(n, p).entries ==> Names(m, p, k)
  {
    if UnderTempRoot(p) {
      WalkAfterRemovingFiles(m, n, [], p.parts);
    }
  }

  /** Frame of the purge loop: it only ever removes plain files, and each
      removed entry is named by one of the targets. */
  lemma {:induction false} PurgeLinesFrame(m: map<Key, Node>, ps: seq<PurePath>)
    ensures FilesRemoved(m, PurgeLines(m, ps).entries)
    ensures forall k :: k in m && k !in PurgeLines(m, ps).entries ==>
      exists i :: 0 <= i < |ps| && Names(m, ps[i], k)
    decreases |ps|
  {
    if ps != [] {
      var init := ps[..|ps| - 1];
      var last := ps[|ps| - 1];
      PurgeLinesFrame(m, init);
      var s := PurgeLines(m, init);
      if !s.raised {
        UnlinkListedFrame(m, s.entries, last);
        var n := PurgeLines(m, ps).entries;
        assert n == UnlinkListed(s.entries, last).entries;
        forall k | k in m && k !in n
          ensures exists i :: 0 <= i < |ps| && Names(m, ps[i], k)
        {
          if k in s.entries {
            assert Names(m, ps[|ps| - 1], k);
          } else {
            var i :| 0 <= i < |init| && Names(m, init[i], k);
            assert ps[i] == init[i];
          }
        }
      } else {
        forall k | k in m && k !in s.entries
          ensures exists i :: 0 <= i < |ps| && Names(m, ps[i], k)
        {
          var i :| 0 <= i < |init| && Names(m, init[i], k);
          assert ps[i] == init[i];
        }
      }
    }
  }

  /** The `i`-th target is the parse of an entry of the list. */
  lemma TargetOfEntry(text: string, i: nat)
    requires i < |Targets(text)|
    ensures ReadEntries(text)[i] in ReadEntries(text) && Targets(text)[i] == Parse(ReadEntries(text)[i])
  {
  }

  /** Safety of the purge: it removes only plain files, and only entries that
      a line of the list names through the lexical safeguard. In particular
      no entry is touched that no accepted line names. */
  lemma PurgeSafety(m: map<Key, Node>, list: Key)
    ensures FilesRemoved(m, Purge(m, list).entries)
    ensures forall k :: k in m && k !in Purge(m, list).entries ==>
      list in m && m[list].File? &&
      exists e :: e in ReadEntries(m[list].contents) && Names(m, Parse(e), k)
  {
    if list in m && m[list].File? {
      var ps := Targets(m[list].contents);
      var entries := ReadEntries(m[list].contents);
      var n := PurgeLines(m, ps).entries;
      assert Purge(m, list).entries == n;
      PurgeLinesFrame(m, ps);
      forall k | k in m && k !in n
        ensures exists e :: e in entries && Names(m, Parse(e), k)
      {
        var i :| 0 <= i < |ps| && Names(m, ps[i], k);
        TargetOfEntry(m[list].contents, i);
      }
    }
  }

  /** After a purge the tree is still well formed and every directory is
      still in place. */
  lemma PurgeKeepsDirectories(m: map<Key, Node>, list: Key)
    requires WellFormed(m)
    ensures WellFormed(Purge(m, list).entries)
    ensures forall k :: k in m && m[k] == Dir ==> k in Purge(m, list).entries && Purge(m, list).entries[k] == Dir
  {
    PurgeSafety(m, list);
    RemovingFilesKeepsWellFormed(m, Purge(m, list).entries);
  }

  /** The list file itself survives the purge unless one of its own lines
      names it. */
  lemma ListSurvivesUnlessNamed(m: map<Key, Node>, list: Key)
    requires list in m && m[list].File?
    requires forall e :: e in ReadEntries(m[list].contents) ==> !Names(m, Parse(e), list)
    ensures list in Purge(m, list).entries && Purge(m, list).entries[list] == m[list]
  {
    PurgeSafety(m, list);
  }

  /** When no accepted line contains "..", every removed entry lies strictly
      inside the temp root on disk as well. */
  lemma PurgeStaysInsideWithoutDotDot(m: map<Key, Node>, list: Key)
    requires WellFormed(m)
    requires list in m && m[list].File?
    requires forall e :: e in ReadEntries(m[list].contents) ==> ".." !in Parse(e).parts
    ensures forall k :: k in m && k !in Purge(m, list).entries ==>
      |TempRoot| < |k| && k[..|TempRoot|] == TempRoot
  {
    PurgeSafety(m, list);
    forall k | k in m && k !in Purge(m, list).entries
      ensures |TempRoot| < |k| && k[..|TempRoot|] == TempRoot
    {
      var e :| e in ReadEntries(m[list].contents) && Names(m, Parse(e), k);
      PlainNameUnderRoot(m, Parse(e), k);
    }
  }

  /** A path without ".." that passes the safeguard names only an entry
      strictly under the temp root. */
  lemma PlainNameUnderRoot(m: map<Key, Node>, p: PurePath, k: Key)
    requires WellFormed(m) && ".." !in p.parts && Names(m, p, k)
    ensures |TempRoot| < |k| && k[..|TempRoot|] == TempRoot
  {
    WalkPlainKey(m, [], p.parts);
    assert [] + p.parts == p.parts;
    UnderTempRootIff(p);
  }

  /** The path "/tmp/../<k>". */
  function ClimbOut(k: Key): PurePath {
    PurePath("/", TempRoot + [".."] + k)
  }

  lemma ClimbOutParses(k: Key)
    requires forall i :: 0 <= i < |k| ==> IsPart(k[i])
    ensures Parse(Format(ClimbOut(k))) == ClimbOut(k)
  {
    var p := ClimbOut(k);
    var head := ["tmp", ".."];
    assert p.parts == head + k;
    assert IsPart(head[0]) && IsPart(head[1]);
    forall i | 0 <= i < |p.parts| ensures IsPart(p.parts[i]) {
      if i >= 2 {
        assert p.parts[i] == k[i - 2];
      } else {
        assert p.parts[i] == head[i];
      }
    }
    ParseFormat(p.parts);
  }

  /** Walking into a directory and straight back out again goes nowhere. */
  lemma WalkUpAgain(m: map<Key, Node>, cur: Key, c: string, rest: seq<string>)
    requires c != ".." && NameFits(c) && cur + [c] in m && m[cur + [c]] == Dir
    ensures Walk(m, cur, [c, ".."] + rest) == Walk(m, cur, rest)
  {
    var parts := [c, ".."] + rest;
    assert parts[0] == c && |parts| > 1;
    assert parts[1..] == [".."] + rest;
    assert ([".."] + rest)[1..] == rest;
    assert Up(cur + [c]) == cur;
  }

  /** The OS resolves "/tmp/../<k>" to `k`, and the safeguard accepts it. */
  lemma ClimbOutResolves(m: map<Key, Node>, k: Key)
    requires WellFormed(m) && TempRoot in m && m[TempRoot] == Dir
    requires k in m && k != [] && ".." !in k
    requires forall i :: 0 <= i < |k| ==> NameFits(k[i])
    requires PathFits(Format(ClimbOut(k)))
    ensures UnderTempRoot(ClimbOut(k))
    ensures Resolve(m, [], ClimbOut(k)) == Found(k)
  {
    var p := ClimbOut(k);
    UnderTempRootIff(p);
    assert p.parts == ["tmp", ".."] + k;
    assert [] + ["tmp"] == TempRoot;
    WalkUpAgain(m, [], "tmp", k);
    WalkPlain(m, [], k);
    assert [] + k == k;
    assert Walk(m, [], p.parts) == Found(k);
  }

  /** A list of one target purges as that target's single step. */
  lemma PurgeLinesOne(m: map<Key, Node>, p: PurePath)
    ensures PurgeLines(m, [p]) == UnlinkListed(m, p)
  {
    assert [p][..0] == [];
  }

  /** The safeguard is lexical: a list holding the single line
      "/tmp/../<k>" passes it, and the purge unlinks the plain file `k`
      wherever it lies, for instance "/etc/passwd" outside the temp root. */
  lemma DotDotPassesSafeguard(m: map<Key, Node>, list: Key, k: Key)
    requires WellFormed(m) && TempRoot in m && m[TempRoot] == Dir
    requires k in m && m[k].File? && ".." !in k
    requires forall i :: 0 <= i < |k| ==> IsPart(k[i]) && NameFits(k[i])
    requires Writable(Format(ClimbOut(k))) && PathFits(Format(ClimbOut(k))) && !HasNul(ClimbOut(k))
    requires list in m && m[list] == File(Render([Format(ClimbOut(k))]))
    ensures Purge(m, list) == PurgeResult(Purged, m - {k})
  {
    var p := ClimbOut(k);
    ClimbOutTargets(k);
    ClimbOutUnlinks(m, k);
    PurgeLinesOne(m, p);
    PurgeOfTargets(m, list, [p], m - {k});
  }

  /** The list holding the line "/tmp/../<k>" has that path as its one
      target. */
  lemma ClimbOutTargets(k: Key)
    requires forall i :: 0 <= i < |k| ==> IsPart(k[i])
    requires Writable(Format(ClimbOut(k)))
    ensures Targets(Render([Format(ClimbOut(k))])) == [ClimbOut(k)]
  {
    ReadEntriesRender([Format(ClimbOut(k))]);
    ClimbOutParses(k);
  }

  /** The purge step for "/tmp/../<k>" unlinks the plain file `k`. */
  lemma ClimbOutUnlinks(m: map<Key, Node>, k: Key)
    requires WellFormed(m) && TempRoot in m && m[TempRoot] == Dir
    requires k in m && m[k].File? && ".." !in k
    requires forall i :: 0 <= i < |k| ==> NameFits(k[i])
    requires PathFits(Format(ClimbOut(k))) && !HasNul(ClimbOut(k))
    ensures UnlinkListed(m, ClimbOut(k)) == PurgeState(m - {k}, false)
  {
    ClimbOutResolves(m, k);
  }

  /** A target is settled in `m` when its purge step changes nothing and does
      not raise: it is refused, or its file is already gone. */
  predicate Settled(m: map<Key, Node>, p: PurePath) {
    UnlinkListed(m, p) == PurgeState(m, false)
  }

  lemma SettledAfterRemovingFiles(m: map<Key, Node>, n: map<Key, Node>, p: PurePath)
    requires FilesRemoved(m, n) && Settled(m, p)
    ensures Settled(n, p)
  {
    WalkAfterRemovingFiles(m, n, [], p.parts);
  }

  /** A purge over targets that are all settled succeeds and changes nothing;
      this is how the purge tolerates files that are already gone. */
  lemma {:induction false} PurgeLinesOfSettled(m: map<Key, Node>, ps: seq<PurePath>)
    requires forall i :: 0 <= i < |ps| ==> Settled(m, ps[i])
    ensures PurgeLines(m, ps) == PurgeState(m, false)
    decreases |ps|
  {
    if ps != [] {
      var init := ps[..|ps| - 1];
      forall i | 0 <= i < |init| ensures Settled(m, init[i]) {
        assert init[i] == ps[i];
      }
      PurgeLinesOfSettled(m, init);
    }
  }

  /** A purge step that does not raise settles its own target. */
  lemma UnlinkListedSettles(m: map<Key, Node>, p: PurePath)
    requires !UnlinkListed(m, p).raised
    ensures FilesRemoved(m, UnlinkListed(m, p).entries)
    ensures Settled(UnlinkListed(m, p).entries, p)
  {
    WalkAfterRemovingFiles(m, UnlinkListed(m, p).entries, [], p.parts);
  }

  /** After a purge that did not raise, every target is settled. */
  lemma {:induction false} PurgeLinesSettles(m: map<Key, Node>, ps: seq<PurePath>)
    requires !PurgeLines(m, ps).raised
    ensures forall i :: 0 <= i < |ps| ==> Settled(PurgeLines(m, ps).entries, ps[i])
    decreases |ps|
  {
    if ps != [] {
      var init := ps[..|ps| - 1];
      var last := ps[|ps| - 1];
      var s := PurgeLines(m, init);
      assert !s.raised;
      PurgeLinesSettles(m, init);
      var f := UnlinkListed(s.entries, last).entries;
      assert PurgeLines(m, ps).entries == f;
      UnlinkListedSettles(s.entries, last);
      forall i | 0 <= i < |ps| ensures Settled(f, ps[i]) {
        if i < |init| {
          assert ps[i] == init[i];
          SettledAfterRemovingFiles(s.entries, f, init[i]);
        }
      }
    }
  }

  /** A purge whose listed files are all gone (or refused by the
      safeguard) succeeds and changes nothing. */
  lemma PurgeOfGoneFiles(m: map<Key, Node>, list: Key)
    requires list in m && m[list].File?
    requires forall e :: e in ReadEntries(m[list].contents) ==>
      var p := Parse(e);
      !UnderTempRoot(p) ||
      (!HasNul(p) && (Resolve(m, [], p).NoEntry? || (Resolve(m, [], p).Found? && Resolve(m, [], p).key !in m)))
    ensures Purge(m, list) == PurgeResult(Purged, m)
  {
    var entries := ReadEntries(m[list].contents);
    var ps := Targets(m[list].contents);
    forall i | 0 <= i < |ps| ensures Settled(m, ps[i]) {
      assert entries[i] in entries;
      assert ps[i] == Parse(entries[i]);
    }
    PurgeLinesOfSettled(m, ps);
  }

  /** The locations in `keys`. */
  function KeySet(keys: seq<Key>): set<Key> {
    set i | 0 <= i < |keys| :: keys[i]
  }

  /** The locations of files staged under `names`. */
  function StagedKeys(names: seq<string>): (keys: seq<Key>)
    ensures |keys| == |names|
    ensures forall i :: 0 <= i < |names| ==> keys[i] == TempPath + [names[i]]
  {
    seq(|names|, i requires 0 <= i < |names| => TempPath + [names[i]])
  }

  /** The purge targets of absolute locations. */
  function Anchored(keys: seq<Key>): (ps: seq<PurePath>)
    ensures |ps| == |keys|
    ensures forall i :: 0 <= i < |keys| ==> ps[i] == PurePath("/", keys[i])
  {
    seq(|keys|, i requires 0 <= i < |keys| => PurePath("/", keys[i]))
  }

  lemma KeySetSnoc(keys: seq<Key>, k: Key)
    ensures KeySet(keys + [k]) == KeySet(keys) + {k}
  {
    var a := keys + [k];
    forall j | j in KeySet(a) ensures j in KeySet(keys) + {k} {
      var i :| 0 <= i < |a| && a[i] == j;
      if i < |keys| {
        assert keys[i] == j;
      }
    }
    forall j | j in KeySet(keys) ensures j in KeySet(a) {
      var i :| 0 <= i < |keys| && keys[i] == j;
      assert a[i] == j;
    }
    assert a[|keys|] == k;
  }

  lemma KeySetPrefix(keys: seq<Key>, n: nat)
    requires 0 < n <= |keys|
    ensures KeySet(keys[..n]) == KeySet(keys[..n - 1]) + {keys[n - 1]}
  {
    assert keys[..n] == keys[..n - 1] + [keys[n - 1]];
    KeySetSnoc(keys[..n - 1], keys[n - 1]);
  }

  /** A list of staged entries names exactly the staged files. */
  lemma StagedTargets(names: seq<string>)
    requires forall i :: 0 <= i < |names| ==> StageableName(names[i])
    ensures Targets(Render(EntriesFor(StagedKeys(names)))) == Anchored(StagedKeys(names))
  {
    var keys := StagedKeys(names);
    var es := EntriesFor(keys);
    forall i | 0 <= i < |names|
      ensures Writable(es[i]) && Parse(es[i]) == PurePath("/", keys[i])
    {
      StagedEntry(names[i]);
    }
    ReadEntriesRender(es);
  }

  /** The purge step for a staged file that is present unlinks it. */
  lemma PurgeStagedStep(s: map<Key, Node>, f: string)
    requires WellFormed(s) && StageableName(f)
    requires TempPath + [f] in s && s[TempPath + [f]].File?
    ensures UnlinkListed(s, PurePath("/", TempPath + [f])) == PurgeState(s - {TempPath + [f]}, false)
  {
    var k := TempPath + [f];
    StagedEntry(f);
    assert k == ["tmp", "houdini_blender", f];
    assert ".." !in k;
    WalkPlain(s, [], k);
    assert [] + k == k;
  }

  /** The facts a purge of staged files relies on: each name is stageable,
      names are distinct, and each staged file is present. */
  ghost predicate StagedPresent(m: map<Key, Node>, names: seq<string>) {
    && WellFormed(m)
    && (forall i :: 0 <= i < |names| ==> StageableName(names[i]))
    && (forall i, j :: 0 <= i < j < |names| ==> names[i] != names[j])
    && (forall i :: 0 <= i < |names| ==> TempPath + [names[i]] in m && m[TempPath + [names[i]]].File?)
  }

  lemma PurgeLinesLast(m: map<Key, Node>, ps: seq<PurePath>, n: nat)
    requires 0 < n <= |ps|
    ensures PurgeLines(m, ps[..n]) ==
      var s := PurgeLines(m, ps[..n - 1]);
      if s.raised then s else UnlinkListed(s.entries, ps[n - 1])
  {
    assert ps[..n][..n - 1] == ps[..n - 1];
  }

  /** After a prefix that ran through without raising, one more line is one
      more `UnlinkListed`. */
  lemma PurgeLinesNext(m: map<Key, Node>, ps: seq<PurePath>, n: nat, s: map<Key, Node>)
    requires 0 < n <= |ps|
    requires PurgeLines(m, ps[..n - 1]) == PurgeState(s, false)
    ensures PurgeLines(m, ps[..n]) == UnlinkListed(s, ps[n - 1])
  {
    PurgeLinesLast(m, ps, n);
  }

  /** Unlinking the next staged file after the earlier ones are gone removes
      exactly that file. */
  lemma StagedUnlinkStep(m: map<Key, Node>, keys: seq<Key>, f: string, n: nat)
    requires 0 < n <= |keys|
    requires keys[n - 1] == TempPath + [f] && StageableName(f)
    requires WellFormed(m) && keys[n - 1] in m && m[keys[n - 1]].File?
    requires keys[n - 1] !in KeySet(keys[..n - 1])
    requires FilesRemoved(m, m - KeySet(keys[..n - 1]))
    ensures UnlinkListed(m - KeySet(keys[..n - 1]), PurePath("/", keys[n - 1])) == PurgeState(m - KeySet(keys[..n]), false)
  {
    var s := m - KeySet(keys[..n - 1]);
    var k := keys[n - 1];
    RemovingFilesKeepsWellFormed(m, s);
    assert k in s && s[k].File?;
    PurgeStagedStep(s, f);
    KeySetPrefix(keys, n);
    RemoveOneMore(m, KeySet(keys[..n - 1]), k);
  }

  /** Removing one more key after a set of keys is removing their union. */
  lemma RemoveOneMore(m: map<Key, Node>, gone: set<Key>, k: Key)
    ensures m - (gone + {k}) == (m - gone) - {k}
  {
  }

  lemma StagedKeysFresh(names: seq<string>, n: nat)
    requires 0 < n <= |names|
    requires forall i, j :: 0 <= i < j < |names| ==> names[i] != names[j]
    ensures StagedKeys(names)[n - 1] !in KeySet(StagedKeys(names)[..n - 1])
  {
    var keys := StagedKeys(names);
    forall i | 0 <= i < n - 1 ensures keys[i] != keys[n - 1] {
      assert keys[i][2] == names[i];
    }
  }

  lemma StagedKeysRemovable(m: map<Key, Node>, names: seq<string>, n: nat)
    requires n <= |names|
    requires forall i :: 0 <= i < |names| ==> TempPath + [names[i]] in m && m[TempPath + [names[i]]].File?
    ensures FilesRemoved(m, m - KeySet(StagedKeys(names)[..n]))
  {
    var keys := StagedKeys(names);
    forall j | j in KeySet(keys[..n]) ensures j in m && m[j].File? {
      var i :| 0 <= i < n && keys[..n][i] == j;
      assert keys[i] == TempPath + [names[i]];
    }
  }

  /** Purging a list of staged files one by one, each still present. */
  lemma {:induction false} PurgeLinesOfStaged(m: map<Key, Node>, names: seq<string>, n: nat)
    requires StagedPresent(m, names) && n <= |names|
    ensures PurgeLines(m, Anchored(StagedKeys(names))[..n]) == PurgeState(m - KeySet(StagedKeys(names)[..n]), false)
    decreases n
  {
    if n == 0 {
      assert KeySet(StagedKeys(names)[..0]) == {};
      assert m - {} == m;
    } else {
      PurgeLinesOfStaged(m, names, n - 1);
      StagedKeysFresh(names, n);
      StagedKeysRemovable(m, names, n - 1);
      var keys := StagedKeys(names);
      StagedUnlinkStep(m, keys, names[n - 1], n);
      PurgeLinesNext(m, Anchored(keys), n, m - KeySet(keys[..n - 1]));
    }
  }

  /** When a list holds the entries of staged files that are all present,
      the purge removes exactly those files and nothing else. */
  lemma PurgeOfStaged(m: map<Key, Node>, list: Key, names: seq<string>)
    requires StagedPresent(m, names)
    requires list in m && m[list] == File(Render(EntriesFor(StagedKeys(names))))
    ensures Purge(m, list) == PurgeResult(Purged, m - KeySet(StagedKeys(names)))
  {
    var keys := StagedKeys(names);
    var ps := Anchored(keys);
    var text := Render(EntriesFor(keys));
    assert m[list].contents == text;
    StagedTargets(names);
    assert Targets(text) == ps;
    PurgeLinesOfAllStaged(m, names);
    PurgeOfTargets(m, list, ps, m - KeySet(keys));
  }

  /** The purge loop over every staged file removes exactly those files. */
  lemma PurgeLinesOfAllStaged(m: map<Key, Node>, names: seq<string>)
    requires StagedPresent(m, names)
    ensures PurgeLines(m, Anchored(StagedKeys(names))) == PurgeState(m - KeySet(StagedKeys(names)), false)
  {
    var keys := StagedKeys(names);
    var ps := Anchored(keys);
    PurgeLinesOfStaged(m, names, |names|);
    assert ps[..|names|] == ps;
    assert keys[..|names|] == keys;
  }

  /** A purge whose list's targets run through without raising ends as the
      loop over them does. */
  lemma PurgeOfTargets(m: map<Key, Node>, list: Key, ps: seq<PurePath>, n: map<Key, Node>)
    requires list in m && m[list].File? && Targets(m[list].contents) == ps
    requires PurgeLines(m, ps) == PurgeState(n, false)
    ensures Purge(m, list) == PurgeResult(Purged, n)
  {
  }

  /** The one-file case: a list holding the entry of one present staged
      file makes the purge remove that file alone. */
  lemma PurgeOfOneStaged(m: map<Key, Node>, list: Key, f: string)
    requires WellFormed(m) && StageableName(f)
    requires TempPath + [f] in m && m[TempPath + [f]].File?
    requires list in m && m[list] == File(EntryFor(TempPath + [f]) + "\n")
    ensures Purge(m, list) == PurgeResult(Purged, m - {TempPath + [f]})
  {
    var names := [f];
    assert StagedKeys(names) == [TempPath + [f]];
    assert EntriesFor([TempPath + [f]]) == [EntryFor(TempPath + [f])];
    KeySetSnoc([], TempPath + [f]);
    assert [] + [TempPath + [f]] == [TempPath + [f]];
    assert KeySet([]) == {};
    PurgeOfStaged(m, list, names);
  }

  /** After a purge that succeeded, the list is not a directory: it was a
      plain file, or absent, and it is still either. */
  lemma PurgedListIsNoDirectory(m: map<Key, Node>, list: Key)
    requires Purge(m, list).outcome == Purged
    ensures !(list in Purge(m, list).entries && Purge(m, list).entries[list] == Dir)
  {
    PurgeSafety(m, list);
  }

  /** Running a successful purge a second time succeeds and changes nothing. */
  lemma PurgeIdempotent(m: map<Key, Node>, list: Key)
    requires Purge(m, list).outcome == Purged
    ensures Purge(Purge(m, list).entries, list) == Purge(m, list)
  {
    PurgeSafety(m, list);
    var f := Purge(m, list).entries;
    if list in m && m[list].File? && list in f {
      var ps := Targets(m[list].contents);
      PurgeLinesSettles(m, ps);
      PurgeLinesOfSettled(f, ps);
    }
  }

  // ---------------------------------------------------------------------
  // Removal: remove_file

  /** `remove_file`: unlinks a plain file, removes an empty directory, and
      does nothing when the path is absent. `rmdir` of the root or of a
      directory that still holds entries raises, and nothing changes. The
      working directory is not removed. */
  method RemoveFile(fs: FileSystem, path: Key) returns (raised: bool)
    requires fs.Valid() && path != fs.cwd
    modifies fs
    ensures fs.Valid()
    ensures raised <==> path in old(fs.entries) && old(fs.entries)[path] == Dir && (path == [] || !IsEmptyDir(old(fs.entries), path))
    ensures raised ==> fs.entries == old(fs.entries)
    ensures !raised ==> fs.entries == old(fs.entries) - {path}
  {
    raised := false;
    if path in fs.entries {
      if fs.entries[path] == Dir {
        if path == [] || !IsEmptyDir(fs.entries, path) {
          raised := true;
        } else {
          fs.Rmdir(path);
        }
      } else {
        fs.Unlink(path);
      }
    }
  }
}
