/** The Houdini side of the clipboard: `houdini_export` stages the selected
    SOPs as Alembic files and lists them for Blender; `houdini_import` reads
    Blender's list and builds one Alembic import per file that exists. The
    node graph is not modelled: an export is the host writing opaque data at
    a path, an import is the list of file names handed to Alembic SOPs. */
module HoudiniManual {
  import opened Text
  import opened Paths
  import opened Files
  import opened ListStore
  import opened Common

  /** A selected node: its name and the name of its node type. */
  datatype Sop = Sop(name: string, typeName: string)

  /** Houdini node names hold neither slashes, whitespace nor NUL. */
  predicate NodeName(name: string) {
    forall i :: 0 <= i < |name| ==> name[i] != '/' && name[i] != '\0' && !IsSpace(name[i])
  }

  predicate DistinctHexes(hexes: seq<string>) {
    forall i, j :: 0 <= i < j < |hexes| ==> hexes[i] != hexes[j]
  }

  /** `sop.name() + '_' + uuid1().hex + '.abc'`. */
  function ExportFileName(name: string, hex: string): string {
    name + "_" + hex + ".abc"
  }

  /** The resolved location of a SOP's export inside the staging directory. */
  function ExportKey(sop: Sop, hex: string): Key {
    TempPath + [ExportFileName(sop.name, hex)]
  }

  /** The export file names of the selection, in order. */
  function ExportNames(sops: seq<Sop>, hexes: seq<string>): (names: seq<string>)
    requires |hexes| == |sops|
    ensures |names| == |sops|
    ensures forall i :: 0 <= i < |sops| ==> names[i] == ExportFileName(sops[i].name, hexes[i])
  {
    seq(|sops|, i requires 0 <= i < |sops| => ExportFileName(sops[i].name, hexes[i]))
  }

  function ExportKeys(sops: seq<Sop>, hexes: seq<string>): (keys: seq<Key>)
    requires |hexes| == |sops|
    ensures |keys| == |sops|
    ensures forall i :: 0 <= i < |sops| ==> keys[i] == ExportKey(sops[i], hexes[i])
  {
    StagedKeys(ExportNames(sops, hexes))
  }

  /** An export file name that fits `NAME_MAX` is a single component that
      ends in ".abc" and can be written on a line of the list. */
  lemma ExportFileNameStageable(name: string, hex: string)
    requires NodeName(name) && IsHex32(hex) && NameFits(ExportFileName(name, hex))
    ensures StageableName(ExportFileName(name, hex))
    ensures ExportFileName(name, hex)[|ExportFileName(name, hex)| - 4..] == ".abc"
  {
    var f := ExportFileName(name, hex);
    assert forall i :: 0 <= i < |hex| ==> hex[i] != '/' && hex[i] != '\n' && hex[i] != '\r' && hex[i] != '\0';
    assert forall c :: c in f ==> c in name || c == '_' || c in hex || c in ".abc";
    assert f[|f| - 1] == 'c';
    assert f[|f| - 4..] == ".abc";
  }

  /** With the hex part of fixed length, the file name determines both the
      node name and the hex part. */
  lemma ExportFileNameInjective(n1: string, h1: string, n2: string, h2: string)
    requires |h1| == 32 && |h2| == 32
    requires ExportFileName(n1, h1) == ExportFileName(n2, h2)
    ensures n1 == n2 && h1 == h2
  {
    var f := ExportFileName(n1, h1);
    assert |n1| == |n2|;
    assert n1 == f[..|n1|] == n2;
    assert h1 == f[|n1| + 1..|n1| + 33] == h2;
  }

  /** Distinct identifiers give distinct files. */
  lemma ExportKeysDistinct(sops: seq<Sop>, hexes: seq<string>)
    requires |hexes| == |sops|
    requires forall i :: 0 <= i < |hexes| ==> IsHex32(hexes[i])
    requires DistinctHexes(hexes)
    ensures Distinct(ExportKeys(sops, hexes))
  {
    var keys := ExportKeys(sops, hexes);
    forall i, j | 0 <= i < j < |keys| ensures keys[i] != keys[j] {
      if keys[i] == keys[j] {
        assert keys[i][2] == ExportFileName(sops[i].name, hexes[i]);
        assert keys[j][2] == ExportFileName(sops[j].name, hexes[j]);
        ExportFileNameInjective(sops[i].name, hexes[i], sops[j].name, hexes[j]);
      }
    }
  }

  // ---------------------------------------------------------------------
  // houdini_export

  /** How `houdini_export` ends. */
  datatype ExportExit =
    | TempPathIsFile   // status "Temp path is a file", severity Error
    | NothingToExport  // severity ImportantMessage
    | ListIsDirectory  // the blend import list is a directory, severity Error
    | PurgeRaised      // an unlink in the purge raised; the exception escapes
    | DoneExporting    // severity Message

  /** The `hou.severityType` of the status message each exit shows. */
  datatype Severity = Message | ImportantMessage | Warning | Error

  /** The severity an export shows; the purge's exception shows none. */
  function ExportSeverity(exit: ExportExit): Severity
    requires exit != PurgeRaised
  {
    match exit
    case TempPathIsFile => Error
    case NothingToExport => ImportantMessage
    case ListIsDirectory => Error
    case DoneExporting => Message
  }

  datatype ExportResult = ExportResult(exit: ExportExit, entries: map<Key, Node>)

  /** The export cycle: guard, selection check, purge of the previous list,
      removal of the list, then for every SOP in order the host writes its
      Alembic file and its path is appended to the list. */
  function ExportCycle(m: map<Key, Node>, sops: seq<Sop>, hexes: seq<string>, blobs: seq<string>): ExportResult
    requires |hexes| == |sops| && |blobs| == |sops|
  {
    var g := Guard(m, TempPath);
    if !g.ready then ExportResult(TempPathIsFile, g.entries)
    else if sops == [] then ExportResult(NothingToExport, g.entries)
    else ExportTail(g.entries, sops, hexes, blobs)
  }

  /** The export past the guard and the empty-selection check: the purge,
      the removal of the list and the staging loop. */
  function ExportTail(g: map<Key, Node>, sops: seq<Sop>, hexes: seq<string>, blobs: seq<string>): ExportResult
    requires |hexes| == |sops| && |blobs| == |sops|
  {
    var p := Purge(g, BlendImportFile);
    match p.outcome
    case PurgeListIsDirectory => ExportResult(ListIsDirectory, p.entries)
    case PurgeUnlinkFailed => ExportResult(PurgeRaised, p.entries)
    case Purged =>
      ExportResult(DoneExporting,
        StageWrites(p.entries - {BlendImportFile}, BlendImportFile, ExportKeys(sops, hexes), blobs, |sops|))
  }

  /** What an export may assume of the host: an existing temp root, SOP names
      without slashes or whitespace and short enough for their export file
      names to fit `NAME_MAX`, and fresh distinct identifiers whose files do
      not exist yet. */
  ghost predicate ExportReady(m: map<Key, Node>, sops: seq<Sop>, hexes: seq<string>, blobs: seq<string>) {
    && WellFormed(m) && TempRoot in m && m[TempRoot] == Dir
    && |hexes| == |sops| && |blobs| == |sops|
    && (forall i :: 0 <= i < |sops| ==> NodeName(sops[i].name) && IsHex32(hexes[i]))
    && (forall i :: 0 <= i < |sops| ==> NameFits(ExportFileName(sops[i].name, hexes[i])))
    && DistinctHexes(hexes)
    && (forall i :: 0 <= i < |sops| ==> ExportKey(sops[i], hexes[i]) !in m)
  }

  /** The state the staging loop starts from, once the guard, the purge and
      the removal of the list went through. */
  lemma ExportBase(m: map<Key, Node>, sops: seq<Sop>, hexes: seq<string>, blobs: seq<string>)
    requires ExportReady(m, sops, hexes, blobs)
    requires Guard(m, TempPath).ready
    requires Purge(Guard(m, TempPath).entries, BlendImportFile).outcome == Purged
    ensures var base := Purge(Guard(m, TempPath).entries, BlendImportFile).entries - {BlendImportFile};
      StagingReady(base, sops, hexes, blobs) && Distinct(ExportKeys(sops, hexes))
  {
    var g := Guard(m, TempPath).entries;
    var p := Purge(g, BlendImportFile).entries;
    assert WellFormed(g);
    PurgeKeepsDirectories(g, BlendImportFile);
    PurgeSafety(g, BlendImportFile);
    RemovingFilesKeepsWellFormed(p, p - {BlendImportFile});
    ExportKeysDistinct(sops, hexes);
    ExportKeysStaged(sops, hexes);
  }

  /** Every key the export stages sits directly in the staging directory
      and is not the list file. */
  lemma ExportKeysStaged(sops: seq<Sop>, hexes: seq<string>)
    requires |hexes| == |sops|
    requires forall i :: 0 <= i < |sops| ==> NodeName(sops[i].name) && IsHex32(hexes[i])
    requires forall i :: 0 <= i < |sops| ==> NameFits(ExportFileName(sops[i].name, hexes[i]))
    ensures forall i :: 0 <= i < |sops| ==>
      ExportKeys(sops, hexes)[i] != BlendImportFile && Up(ExportKeys(sops, hexes)[i]) == TempPath
  {
    var keys := ExportKeys(sops, hexes);
    forall i | 0 <= i < |sops| ensures keys[i] != BlendImportFile && Up(keys[i]) == TempPath {
      ExportFileNameStageable(sops[i].name, hexes[i]);
      assert keys[i][2] == ExportFileName(sops[i].name, hexes[i]);
      assert BlendImportFile[2] == "blend_import";
    }
  }

  /** `houdini_export`. */
  method HoudiniExport(fs: FileSystem, sops: seq<Sop>, hexes: seq<string>, blobs: seq<string>) returns (exit: ExportExit)
    requires fs.Valid() && ExportReady(fs.entries, sops, hexes, blobs)
    modifies fs
    ensures fs.Valid()
    ensures ExportResult(exit, fs.entries) == ExportCycle(old(fs.entries), sops, hexes, blobs)
  {
    ghost var m := fs.entries;
    assert TempPath[|TempPath| - 1] == "houdini_blender";
    var ready := TempPathExists(fs, TempPath);
    if !ready {
      return TempPathIsFile;
    }
    if |sops| == 0 {
      return NothingToExport;
    }
    exit := PurgeAndStage(fs, sops, hexes, blobs, m);
  }

  /** The export once the staging directory exists and a SOP is selected. */
  method PurgeAndStage(fs: FileSystem, sops: seq<Sop>, hexes: seq<string>, blobs: seq<string>, ghost m: map<Key, Node>)
      returns (exit: ExportExit)
    requires fs.Valid() && ExportReady(m, sops, hexes, blobs)
    requires Guard(m, TempPath).ready && fs.entries == Guard(m, TempPath).entries
    modifies fs
    ensures fs.Valid()
    ensures ExportResult(exit, fs.entries) == ExportTail(old(fs.entries), sops, hexes, blobs)
  {
    var purged := PurgeOldFiles(fs, BlendImportFile);
    if purged == PurgeListIsDirectory {
      return ListIsDirectory;
    }
    if purged == PurgeUnlinkFailed {
      return PurgeRaised;
    }
    ExportBase(m, sops, hexes, blobs);
    PurgeSafety(Guard(m, TempPath).entries, BlendImportFile);
    PurgedListIsNoDirectory(Guard(m, TempPath).entries, BlendImportFile);
    var stuck := RemoveFile(fs, BlendImportFile);
    assert !stuck;
    ExportEach(fs, sops, hexes, blobs);
    return DoneExporting;
  }

  /** What the staging loop may assume of the tree it starts from: the
      staging directory exists, neither the list nor any export file does,
      every export file lies directly in the staging directory and its name
      fits `NAME_MAX`. */
  ghost predicate StagingReady(base: map<Key, Node>, sops: seq<Sop>, hexes: seq<string>, blobs: seq<string>) {
    && |hexes| == |sops| && |blobs| == |sops|
    && WellFormed(base) && TempPath in base && base[TempPath] == Dir
    && BlendImportFile !in base && BlendImportFile !in ExportKeys(sops, hexes)
    && (forall i :: 0 <= i < |sops| ==> ExportKeys(sops, hexes)[i] !in base)
    && (forall i :: 0 <= i < |sops| ==> Up(ExportKeys(sops, hexes)[i]) == TempPath)
    && (forall i :: 0 <= i < |sops| ==> NodeName(sops[i].name) && IsHex32(hexes[i]))
    && (forall i :: 0 <= i < |sops| ==> NameFits(ExportFileName(sops[i].name, hexes[i])))
  }

  /** The loop over the selected SOPs: the host writes each SOP's Alembic
      file, then its resolved path is appended to the blend import list. */
  method ExportEach(fs: FileSystem, sops: seq<Sop>, hexes: seq<string>, blobs: seq<string>)
    requires fs.Valid() && StagingReady(fs.entries, sops, hexes, blobs)
    modifies fs
    ensures fs.Valid()
    ensures fs.entries == StageWrites(old(fs.entries), BlendImportFile, ExportKeys(sops, hexes), blobs, |sops|)
  {
    ghost var base := fs.entries;
    var i := 0;
    while i < |sops|
      invariant 0 <= i <= |sops|
      invariant fs.entries == StageWrites(base, BlendImportFile, ExportKeys(sops, hexes), blobs, i)
      invariant fs.Valid()
    {
      ExportOne(fs, sops, hexes, blobs, base, i);
      i := i + 1;
    }
  }

  /** One turn of that loop: the SOP at `i` is written and listed. */
  method ExportOne(fs: FileSystem, sops: seq<Sop>, hexes: seq<string>, blobs: seq<string>, ghost base: map<Key, Node>, i: nat)
    requires StagingReady(base, sops, hexes, blobs) && i < |sops|
    requires fs.Valid() && fs.entries == StageWrites(base, BlendImportFile, ExportKeys(sops, hexes), blobs, i)
    modifies fs
    ensures fs.Valid() && fs.entries == StageWrites(base, BlendImportFile, ExportKeys(sops, hexes), blobs, i + 1)
  {
    ghost var keys := ExportKeys(sops, hexes);
    StageStepReady(base, TempPath, BlendImportFile, keys, blobs, i);
    var key := TempPath + [ExportFileName(sops[i].name, hexes[i])];
    assert key == keys[i] && key[|key| - 1] == ExportFileName(sops[i].name, hexes[i]);
    assert BlendImportFile[|BlendImportFile| - 1] == "blend_import";
    assert key != BlendImportFile by { assert keys[i] in keys; }
    Stage(fs, BlendImportFile, key, blobs[i]);
  }

  /** A plain file in the way of the staging directory stops the export before
      anything is written. */
  lemma ExportRefusedByFile(m: map<Key, Node>, sops: seq<Sop>, hexes: seq<string>, blobs: seq<string>)
    requires |hexes| == |sops| && |blobs| == |sops|
    requires TempPath in m && m[TempPath].File?
    ensures ExportCycle(m, sops, hexes, blobs) == ExportResult(TempPathIsFile, m)
    ensures ExportSeverity(TempPathIsFile) == Error
  {
  }

  /** With nothing selected the export neither purges, removes nor appends:
      the only change is the guard creating the staging directory. */
  lemma ExportNothingSelected(m: map<Key, Node>)
    ensures ExportCycle(m, [], [], []).exit in {TempPathIsFile, NothingToExport}
    ensures ExportCycle(m, [], [], []).entries == Guard(m, TempPath).entries
    ensures TempPath in m ==> ExportCycle(m, [], [], []).entries == m
    ensures TempPath !in m ==> ExportCycle(m, [], [], []).entries == m[TempPath := Dir]
    ensures ExportCycle(m, [], [], []).exit == NothingToExport <==> !(TempPath in m && m[TempPath].File?)
    ensures ExportSeverity(NothingToExport) == ImportantMessage
  {
  }

  /** A blend import list that is a directory aborts the export before the
      list is removed and before anything is staged. */
  lemma ExportListIsDirectory(m: map<Key, Node>, sops: seq<Sop>, hexes: seq<string>, blobs: seq<string>)
    requires |hexes| == |sops| && |blobs| == |sops| && sops != []
    requires TempPath in m && m[TempPath] == Dir
    requires BlendImportFile in m && m[BlendImportFile] == Dir
    ensures ExportCycle(m, sops, hexes, blobs) == ExportResult(ListIsDirectory, m)
    ensures ExportSeverity(ListIsDirectory) == Error
  {
  }

  /** After a successful export the blend import list holds exactly one line
      per selected SOP, in selection order; each line is the resolved path of
      a ".abc" file directly inside the staging directory, under the temp
      root, and that file holds what the host wrote for the SOP. */
  lemma ExportSucceeds(m: map<Key, Node>, sops: seq<Sop>, hexes: seq<string>, blobs: seq<string>)
    requires ExportReady(m, sops, hexes, blobs)
    requires ExportCycle(m, sops, hexes, blobs).exit == DoneExporting
    ensures var r := ExportCycle(m, sops, hexes, blobs).entries;
      && WellFormed(r)
      && BlendImportFile in r && r[BlendImportFile] == File(Render(EntriesFor(ExportKeys(sops, hexes))))
      && ReadEntries(r[BlendImportFile].contents) == EntriesFor(ExportKeys(sops, hexes))
    ensures forall i :: 0 <= i < |sops| ==>
      var f := ExportFileName(sops[i].name, hexes[i]);
      && Parse(EntriesFor(ExportKeys(sops, hexes))[i]) == PurePath("/", TempPath + [f])
      && UnderTempRoot(PurePath("/", TempPath + [f]))
      && f[|f| - 4..] == ".abc"
    ensures forall i :: 0 <= i < |sops| ==>
      ExportKeys(sops, hexes)[i] in ExportCycle(m, sops, hexes, blobs).entries &&
      ExportCycle(m, sops, hexes, blobs).entries[ExportKeys(sops, hexes)[i]] == File(blobs[i])
  {
    ExportBase(m, sops, hexes, blobs);
    var base := Purge(Guard(m, TempPath).entries, BlendImportFile).entries - {BlendImportFile};
    assert ExportCycle(m, sops, hexes, blobs).entries ==
      StageWrites(base, BlendImportFile, ExportKeys(sops, hexes), blobs, |sops|);
    StagedAll(base, sops, hexes, blobs);
    ExportEntries(sops, hexes);
  }

  /** Staging every selected SOP into a tree without the list leaves the
      list holding one line per SOP, in order, and each file its data. */
  lemma StagedAll(base: map<Key, Node>, sops: seq<Sop>, hexes: seq<string>, blobs: seq<string>)
    requires StagingReady(base, sops, hexes, blobs) && Distinct(ExportKeys(sops, hexes)) && sops != []
    ensures var r := StageWrites(base, BlendImportFile, ExportKeys(sops, hexes), blobs, |sops|);
      && WellFormed(r)
      && BlendImportFile in r && r[BlendImportFile] == File(Render(EntriesFor(ExportKeys(sops, hexes))))
      && ReadEntries(r[BlendImportFile].contents) == EntriesFor(ExportKeys(sops, hexes))
      && (forall i :: 0 <= i < |sops| ==> ExportKeys(sops, hexes)[i] in r && r[ExportKeys(sops, hexes)[i]] == File(blobs[i]))
  {
    var keys := ExportKeys(sops, hexes);
    assert keys[..|sops|] == keys;
    StageWritesList(base, BlendImportFile, keys, blobs, |sops|);
    StageWritesFiles(base, BlendImportFile, keys, blobs, |sops|);
    StageWritesWellFormed(base, TempPath, BlendImportFile, keys, blobs, |sops|);
    ExportEntries(sops, hexes);
    ReadEntriesRender(EntriesFor(keys));
  }

  /** Each recorded line parses back to its ".abc" file in the staging
      directory, under the temp root. */
  lemma ExportEntries(sops: seq<Sop>, hexes: seq<string>)
    requires |hexes| == |sops|
    requires forall i :: 0 <= i < |sops| ==> NodeName(sops[i].name) && IsHex32(hexes[i])
    requires forall i :: 0 <= i < |sops| ==> NameFits(ExportFileName(sops[i].name, hexes[i]))
    ensures forall i :: 0 <= i < |sops| ==> Writable(EntriesFor(ExportKeys(sops, hexes))[i])
    ensures forall i :: 0 <= i < |sops| ==>
      var f := ExportFileName(sops[i].name, hexes[i]);
      && Parse(EntriesFor(ExportKeys(sops, hexes))[i]) == PurePath("/", TempPath + [f])
      && UnderTempRoot(PurePath("/", TempPath + [f]))
      && f[|f| - 4..] == ".abc"
  {
    var es := EntriesFor(ExportKeys(sops, hexes));
    forall i | 0 <= i < |sops|
      ensures Writable(es[i])
      ensures var f := ExportFileName(sops[i].name, hexes[i]);
        Parse(es[i]) == PurePath("/", TempPath + [f]) && UnderTempRoot(PurePath("/", TempPath + [f])) && f[|f| - 4..] == ".abc"
    {
      ExportFileNameStageable(sops[i].name, hexes[i]);
      StagedEntry(ExportFileName(sops[i].name, hexes[i]));
    }
  }

  /** Outside the blend import list, the export changes none of the entries
      the purge left, and adds nothing but the staged files. */
  lemma ExportFrame(m: map<Key, Node>, sops: seq<Sop>, hexes: seq<string>, blobs: seq<string>)
    requires ExportReady(m, sops, hexes, blobs)
    requires ExportCycle(m, sops, hexes, blobs).exit == DoneExporting
    ensures var p := Purge(Guard(m, TempPath).entries, BlendImportFile).entries;
      var r := ExportCycle(m, sops, hexes, blobs).entries;
      && (forall k :: k in p && k != BlendImportFile ==> k in r && r[k] == p[k])
      && (forall k :: k in r ==> k in p || k == BlendImportFile || k in ExportKeys(sops, hexes))
  {
    ExportBase(m, sops, hexes, blobs);
    var keys := ExportKeys(sops, hexes);
    var base := Purge(Guard(m, TempPath).entries, BlendImportFile).entries - {BlendImportFile};
    assert ExportCycle(m, sops, hexes, blobs).entries == StageWrites(base, BlendImportFile, keys, blobs, |sops|);
    assert keys[..|sops|] == keys;
    StageWritesFrame(base, BlendImportFile, keys, blobs, |sops|);
  }

  /** The next export's purge removes exactly the files this export staged
      and nothing else, so staged files do not accumulate. */
  lemma ExportPurgedByNext(m: map<Key, Node>, sops: seq<Sop>, hexes: seq<string>, blobs: seq<string>)
    requires ExportReady(m, sops, hexes, blobs)
    requires ExportCycle(m, sops, hexes, blobs).exit == DoneExporting
    ensures var r := ExportCycle(m, sops, hexes, blobs).entries;
      Purge(r, BlendImportFile) == PurgeResult(Purged, r - KeySet(ExportKeys(sops, hexes)))
  {
    var r := ExportCycle(m, sops, hexes, blobs).entries;
    var names := ExportNames(sops, hexes);
    ExportSucceeds(m, sops, hexes, blobs);
    ExportKeysDistinct(sops, hexes);
    forall i | 0 <= i < |names| ensures StageableName(names[i]) {
      ExportFileNameStageable(sops[i].name, hexes[i]);
    }
    forall i, j | 0 <= i < j < |names| ensures names[i] != names[j] {
      assert ExportKeys(sops, hexes)[i] != ExportKeys(sops, hexes)[j];
    }
    PurgeOfStaged(r, BlendImportFile, names);
  }

  // ---------------------------------------------------------------------
  // houdini_import

  /** How `houdini_import` ends. */
  datatype ImportExit =
    | NothingToImport        // no hou import list, severity ImportantMessage
    | NoSopSelected          // severity Error
    | ImportListIsDirectory  // severity Error
    | ImportListEmpty        // no listed path exists, severity Error
    | DoneWithMissing        // severity Warning
    | DoneImporting          // severity Message
    | ExistsRaised           // `exists()` raised for a line; the exception escapes

  /** The severity an import shows; the exception shows none. */
  function ImportSeverity(exit: ImportExit): Severity
    requires exit != ExistsRaised
  {
    match exit
    case NothingToImport => ImportantMessage
    case NoSopSelected => Error
    case ImportListIsDirectory => Error
    case ImportListEmpty => Error
    case DoneWithMissing => Warning
    case DoneImporting => Message
  }

  /** What an import does: its exit, the file names given to Alembic SOPs in
      order, and whether the single file went into the selected Stash SOP. */
  datatype ImportPlan = ImportPlan(exit: ImportExit, loaded: seq<string>, intoStash: bool)

  /** The import: the list's presence, the selection, the list's kind, then
      the reading loop, which an `exists()` that raises ends before any node
      is built. */
  function ImportOutcome(m: map<Key, Node>, cwd: Key, selection: seq<Sop>): ImportPlan {
    if HouImportFile !in m then ImportPlan(NothingToImport, [], false)
    else if selection == [] then ImportPlan(NoSopSelected, [], false)
    else if m[HouImportFile] == Dir then ImportPlan(ImportListIsDirectory, [], false)
    else
      var es := ReadEntries(m[HouImportFile].contents);
      if AnyRaises(m, cwd, es) then ImportPlan(ExistsRaised, [], false)
      else ListedOutcome(ExistingPaths(m, cwd, es), AnyMissing(m, cwd, es), selection[0])
  }

  /** The end of an import once the list was read into `paths` and `missing`. */
  function ListedOutcome(paths: seq<string>, missing: bool, sop: Sop): ImportPlan {
    if paths == [] then ImportPlan(ImportListEmpty, [], false)
    else
      ImportPlan(if missing then DoneWithMissing else DoneImporting, paths,
        sop.typeName == "stash" && |paths| == 1)
  }

  /** `houdini_import`; it changes no file. */
  method HoudiniImport(fs: FileSystem, selection: seq<Sop>) returns (exit: ImportExit, loaded: seq<string>, intoStash: bool)
    requires fs.Valid()
    ensures ImportPlan(exit, loaded, intoStash) == ImportOutcome(fs.entries, fs.cwd, selection)
  {
    if HouImportFile !in fs.entries {
      return NothingToImport, [], false;
    }
    if |selection| == 0 {
      return NoSopSelected, [], false;
    }
    var sop := selection[0];
    if fs.entries[HouImportFile] == Dir {
      return ImportListIsDirectory, [], false;
    }
    var paths, missing, raised := PartitionListed(fs, HouImportFile);
    if raised {
      return ExistsRaised, [], false;
    }
    assert ImportOutcome(fs.entries, fs.cwd, selection) == ListedOutcome(paths, missing, sop);
    exit, loaded, intoStash := LoadListed(paths, missing, sop);
  }

  /** The end of `houdini_import` once the list was read: the empty-list
      error, the Stash special case for a single file, or one Alembic import
      per path; then the status. */
  method LoadListed(paths: seq<string>, missing: bool, sop: Sop) returns (exit: ImportExit, loaded: seq<string>, intoStash: bool)
    ensures ImportPlan(exit, loaded, intoStash) == ListedOutcome(paths, missing, sop)
  {
    if |paths| == 0 {
      return ImportListEmpty, [], false;
    }
    if sop.typeName == "stash" && |paths| == 1 {
      loaded := [paths[0]];
      intoStash := true;
    } else {
      loaded := ImportEach(paths);
      intoStash := false;
    }
    exit := if missing then DoneWithMissing else DoneImporting;
  }

  /** The import's exits: an absent list means nothing to import, no
      selection and a directory list are errors, files are loaded exactly in
      the two "done" exits, and a Stash SOP receives a single file. Every
      error shows severity Error, missing files a Warning, a clean import a
      Message. */
  lemma ImportCases(m: map<Key, Node>, cwd: Key, selection: seq<Sop>)
    ensures var r := ImportOutcome(m, cwd, selection);
      && (r.exit == NothingToImport <==> HouImportFile !in m)
      && (r.exit == NoSopSelected <==> HouImportFile in m && selection == [])
      && (r.exit == ImportListIsDirectory <==> HouImportFile in m && selection != [] && m[HouImportFile] == Dir)
      && (r.loaded != [] <==> r.exit in {DoneWithMissing, DoneImporting})
      && (r.intoStash ==> |r.loaded| == 1 && selection[0].typeName == "stash")
    ensures var r := ImportOutcome(m, cwd, selection);
      r.exit != ExistsRaised ==>
      && (ImportSeverity(r.exit) == Error <==> r.exit in {NoSopSelected, ImportListIsDirectory, ImportListEmpty})
      && (ImportSeverity(r.exit) == Warning <==> r.exit == DoneWithMissing)
      && (ImportSeverity(r.exit) == Message <==> r.exit == DoneImporting)
  {
    if HouImportFile in m && selection != [] && m[HouImportFile] != Dir {
      var es := ReadEntries(m[HouImportFile].contents);
      if !AnyRaises(m, cwd, es) {
        var paths := ExistingPaths(m, cwd, es);
        var missing := AnyMissing(m, cwd, es);
        assert ImportOutcome(m, cwd, selection) == ListedOutcome(paths, missing, selection[0]);
        ListedOutcomeCases(paths, missing, selection[0]);
      }
    }
  }

  /** The end of an import once the list was read: files are loaded exactly
      in the two "done" exits, and a Stash receives only a single file. */
  lemma ListedOutcomeCases(paths: seq<string>, missing: bool, sop: Sop)
    ensures var r := ListedOutcome(paths, missing, sop);
      && r.exit in {ImportListEmpty, DoneWithMissing, DoneImporting}
      && (r.loaded != [] <==> r.exit in {DoneWithMissing, DoneImporting})
      && (r.intoStash ==> |r.loaded| == 1 && sop.typeName == "stash")
  {
  }

  /** Once the list is read, a line for which `exists()` raises ends the
      import with nothing loaded. Otherwise the loaded files are exactly the
      listed paths that exist, in file order; none existing is an error,
      some missing a warning, and when none is missing every listed path is
      loaded. */
  lemma ImportReads(m: map<Key, Node>, cwd: Key, selection: seq<Sop>)
    requires HouImportFile in m && m[HouImportFile].File? && selection != []
    ensures var es := ReadEntries(m[HouImportFile].contents);
      var r := ImportOutcome(m, cwd, selection);
      && (r.exit == ExistsRaised <==> AnyRaises(m, cwd, es))
      && (r.exit == ExistsRaised ==> r.loaded == [])
    ensures var es := ReadEntries(m[HouImportFile].contents);
      var r := ImportOutcome(m, cwd, selection);
      !AnyRaises(m, cwd, es) ==>
      && (r.exit == ImportListEmpty <==> forall e :: e in es ==> !ExistsAt(m, cwd, e))
      && (r.exit == DoneWithMissing <==> (exists e :: e in es && ExistsAt(m, cwd, e)) && AnyMissing(m, cwd, es))
      && (r.exit == DoneImporting ==> r.loaded == es)
      && (r.exit != ImportListEmpty ==> r.loaded == ExistingPaths(m, cwd, es))
  {
    var es := ReadEntries(m[HouImportFile].contents);
    if !AnyRaises(m, cwd, es) {
      var paths := ExistingPaths(m, cwd, es);
      assert ImportOutcome(m, cwd, selection) == ListedOutcome(paths, AnyMissing(m, cwd, es), selection[0]);
      ExistingPathsLaw(m, cwd, es);
      ExistingPathsEmpty(m, cwd, es);
    }
  }
}
