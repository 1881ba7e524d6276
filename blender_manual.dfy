/** The Blender side of the clipboard: the "Yank" operator stages the
    selected meshes as one Alembic file and lists it for Houdini; the "Paste"
    operator reads Houdini's list and imports every listed file that exists.
    `bpy.ops` calls are host actions: an export writes opaque data at a path,
    an import is recorded as the path handed to the importer. */
module BlenderManual {
  import opened Text
  import opened Paths
  import opened Files
  import opened ListStore
  import opened Common

  /** A selected object: its name and its `type` ('MESH', 'CAMERA', ...). */
  datatype SceneObject = SceneObject(name: string, objectType: string)

  /** The returned set of an operator's `execute`. */
  datatype OperatorResult = Cancelled | Finished

  /** The level of an operator's `self.report`, when it reports. */
  datatype Report = NoReport | Info | Warning | Error

  datatype Status = Status(result: OperatorResult, report: Report)

  // ---------------------------------------------------------------------
  // The mesh filter

  /** The selected objects of type 'MESH', in selection order. */
  function Meshes(objs: seq<SceneObject>): seq<SceneObject>
    decreases |objs|
  {
    if objs == [] then []
    else
      var o := objs[|objs| - 1];
      Meshes(objs[..|objs| - 1]) + (if o.objectType == "MESH" then [o] else [])
  }

  /** `list.remove(x)`: drops the first element equal to `x`, which must be
      present (Python raises `ValueError` otherwise). */
  function RemoveFirst<T(==)>(s: seq<T>, x: T): (r: seq<T>)
    requires x in s
    decreases |s|
  {
    if s[0] == x then s[1..]
    else [s[0]] + RemoveFirst(s[1..], x)
  }

  /** `list.remove(x)` drops exactly one occurrence of `x`. */
  lemma {:induction false} RemoveFirstLaw<T>(s: seq<T>, x: T)
    requires x in s
    ensures |RemoveFirst(s, x)| == |s| - 1
    ensures multiset(RemoveFirst(s, x)) == multiset(s) - multiset{x}
    decreases |s|
  {
    assert s == [s[0]] + s[1..];
    if s[0] != x {
      RemoveFirstLaw(s[1..], x);
    }
  }

  /** Removing `x` where it first occurs is removing that occurrence. */
  lemma {:induction false} RemoveFirstAt<T>(a: seq<T>, x: T, b: seq<T>)
    requires x !in a
    ensures x in a + [x] + b && RemoveFirst(a + [x] + b, x) == a + b
    decreases |a|
  {
    var s := a + [x] + b;
    assert s[|a|] == x;
    if a == [] {
      assert s == [x] + b;
    } else {
      var t := a[1..];
      var u := t + [x] + b;
      assert a == [a[0]] + t;
      assert s == [a[0]] + u;
      assert s[0] == a[0] && s[1..] == u;
      RemoveFirstAt(t, x, b);
      assert RemoveFirst(s, x) == [a[0]] + RemoveFirst(u, x);
    }
  }

  lemma {:induction false} MeshesAreMeshes(objs: seq<SceneObject>)
    ensures forall o :: o in Meshes(objs) <==> o in objs && o.objectType == "MESH"
    decreases |objs|
  {
    if objs != [] {
      MeshesAreMeshes(objs[..|objs| - 1]);
      assert objs == objs[..|objs| - 1] + [objs[|objs| - 1]];
    }
  }

  /** The filter keeps exactly the meshes, in their original order. */
  lemma {:induction false} MeshesAppend(a: seq<SceneObject>, b: seq<SceneObject>)
    ensures Meshes(a + b) == Meshes(a) + Meshes(b)
    decreases |b|
  {
    if b == [] {
      assert a + b == a;
    } else {
      assert (a + b)[..|a + b| - 1] == a + b[..|b| - 1];
      MeshesAppend(a, b[..|b| - 1]);
    }
  }

  /** No mesh is kept exactly when none is selected. */
  lemma {:induction false} MeshesEmpty(objs: seq<SceneObject>)
    ensures Meshes(objs) == [] <==> forall i :: 0 <= i < |objs| ==> objs[i].objectType != "MESH"
    decreases |objs|
  {
    if objs != [] {
      var init := objs[..|objs| - 1];
      MeshesEmpty(init);
      forall i | 0 <= i < |init| ensures init[i] == objs[i] { }
    }
  }

  /** One iteration of the filtering loop: the object at `i` is still in the
      selection, and removing it when it is no mesh extends the filtered
      prefix by one. */
  lemma KeepMeshesStep(snapshot: seq<SceneObject>, i: nat)
    requires i < |snapshot|
    ensures snapshot[i] in Meshes(snapshot[..i]) + snapshot[i..]
    ensures var obj := snapshot[i];
      var cur := Meshes(snapshot[..i]) + snapshot[i..];
      Meshes(snapshot[..i + 1]) + snapshot[i + 1..] ==
        if obj.objectType == "MESH" then cur else RemoveFirst(cur, obj)
  {
    var obj := snapshot[i];
    var done := snapshot[..i + 1];
    assert done[..i] == snapshot[..i] && done[i] == obj;
    var ms := Meshes(snapshot[..i]);
    assert Meshes(done) == ms + (if obj.objectType == "MESH" then [obj] else []);
    var rest := snapshot[i + 1..];
    assert snapshot[i..] == [obj] + rest;
    assert ms + snapshot[i..] == ms + [obj] + rest;
    if obj.objectType != "MESH" {
      MeshesAreMeshes(snapshot[..i]);
      RemoveFirstAt(ms, obj, rest);
      assert Meshes(done) == ms;
    } else {
      assert Meshes(done) + rest == ms + [obj] + rest;
    }
  }

  /** The loop over `list(selection)` removing every object that is not a
      mesh from `selection`. */
  method KeepMeshes(selected: seq<SceneObject>) returns (selection: seq<SceneObject>)
    ensures selection == Meshes(selected)
  {
    selection := selected;
    var snapshot := selected;
    var i := 0;
    while i < |snapshot|
      invariant 0 <= i <= |snapshot|
      invariant selection == Meshes(snapshot[..i]) + snapshot[i..]
    {
      var obj := snapshot[i];
      KeepMeshesStep(snapshot, i);
      if !(obj.objectType == "MESH") {
        selection := RemoveFirst(selection, obj);
      }
      i := i + 1;
    }
    assert snapshot[..i] == snapshot;
  }

  // ---------------------------------------------------------------------
  // file_exists

  /** `file_exists`: 1 when absent, 2 for a directory, 0 for a plain file. */
  function FileExists(m: map<Key, Node>, k: Key): (r: int)
    ensures r == 1 <==> k !in m
    ensures r == 2 <==> k in m && m[k] == Dir
    ensures r == 0 <==> k in m && m[k].File?
    ensures r == 0 || r == 1 || r == 2
  {
    if k !in m then 1 else if m[k] == Dir then 2 else 0
  }

  // ---------------------------------------------------------------------
  // HoudiniExportOp.execute

  datatype ExportExit =
    | TempPathIsFile   // INFO report, CANCELLED
    | NothingToExport  // INFO report, FINISHED
    | ListIsDirectory  // ERROR report, CANCELLED
    | PurgeRaised      // an unlink in the purge raised; the exception escapes
    | DoneExporting    // INFO report, FINISHED

  /** What the operator returns and reports; the purge's exception returns
      nothing. */
  function ExportStatus(exit: ExportExit): Status
    requires exit != PurgeRaised
  {
    match exit
    case TempPathIsFile => Status(Cancelled, Info)
    case NothingToExport => Status(Finished, Info)
    case ListIsDirectory => Status(Cancelled, Error)
    case DoneExporting => Status(Finished, Info)
  }

  /** `f"hou_{uuid1().hex}.abc"`, the name of the staged file. */
  function ExportFileName(hex: string): string {
    "hou_" + hex + ".abc"
  }

  /** The resolved `hou_<hex>.abc` inside the staging directory. */
  function ExportKey(hex: string): Key {
    TempPath + [ExportFileName(hex)]
  }

  datatype ExportResult = ExportResult(exit: ExportExit, entries: map<Key, Node>)

  /** The export cycle: guard, mesh filter, purge of the previous list,
      removal of the list, the host's export of the selection, and one line
      appended to the list. */
  function ExportCycle(m: map<Key, Node>, selected: seq<SceneObject>, hex: string, blob: string): ExportResult {
    var g := Guard(m, TempPath);
    if !g.ready then ExportResult(TempPathIsFile, g.entries)
    else if Meshes(selected) == [] then ExportResult(NothingToExport, g.entries)
    else ExportTail(g.entries, hex, blob)
  }

  /** The export past the guard and the mesh filter: the purge, the removal
      of the list, the host's export and the appended line. */
  function ExportTail(g: map<Key, Node>, hex: string, blob: string): ExportResult {
    var p := Purge(g, HouImportFile);
    match p.outcome
    case PurgeListIsDirectory => ExportResult(ListIsDirectory, p.entries)
    case PurgeUnlinkFailed => ExportResult(PurgeRaised, p.entries)
    case Purged =>
      ExportResult(DoneExporting, StageWrites(p.entries - {HouImportFile}, HouImportFile, [ExportKey(hex)], [blob], 1))
  }

  /** An existing temp root and a fresh identifier whose file does not exist. */
  ghost predicate ExportReady(m: map<Key, Node>, hex: string) {
    WellFormed(m) && TempRoot in m && m[TempRoot] == Dir && IsHex32(hex) && ExportKey(hex) !in m
  }

  lemma ExportFileStageable(hex: string)
    requires IsHex32(hex)
    ensures StageableName(ExportFileName(hex))
    ensures ExportKey(hex) != HouImportFile && Up(ExportKey(hex)) == TempPath
  {
    var f := ExportFileName(hex);
    assert |f| == 40;
    assert forall i :: 0 <= i < |hex| ==> hex[i] != '/' && hex[i] != '\n' && hex[i] != '\r' && hex[i] != '\0';
    assert forall c :: c in f ==> c in "hou_" || c in hex || c in ".abc";
    assert f[|f| - 1] == 'c';
    assert ExportKey(hex)[2] == f && HouImportFile[2] == "hou_import";
  }

  /** The state the export writes into, once the guard, the purge and the
      removal of the list went through. */
  lemma ExportBase(g: map<Key, Node>, hex: string)
    requires WellFormed(g) && TempPath in g && g[TempPath] == Dir
    requires IsHex32(hex) && ExportKey(hex) !in g
    requires Purge(g, HouImportFile).outcome == Purged
    ensures var base := Purge(g, HouImportFile).entries - {HouImportFile};
      && WellFormed(base) && TempPath in base && base[TempPath] == Dir
      && HouImportFile !in base && ExportKey(hex) !in base
      && ExportKey(hex) != HouImportFile && Up(ExportKey(hex)) == TempPath
  {
    var p := Purge(g, HouImportFile).entries;
    PurgeKeepsDirectories(g, HouImportFile);
    PurgeSafety(g, HouImportFile);
    RemovingFilesKeepsWellFormed(p, p - {HouImportFile});
    ExportFileStageable(hex);
  }

  /** `HoudiniExportOp.execute`. */
  method BlenderExport(fs: FileSystem, selected: seq<SceneObject>, hex: string, blob: string) returns (exit: ExportExit)
    requires fs.Valid() && ExportReady(fs.entries, hex)
    modifies fs
    ensures fs.Valid()
    ensures ExportResult(exit, fs.entries) == ExportCycle(old(fs.entries), selected, hex, blob)
  {
    ghost var m := fs.entries;
    assert TempPath[|TempPath| - 1] == "houdini_blender";
    var ready := TempPathExists(fs, TempPath);
    if !ready {
      return TempPathIsFile;
    }
    var selection := KeepMeshes(selected);
    if |selection| == 0 {
      return NothingToExport;
    }
    exit := PurgeAndStage(fs, hex, blob);
  }

  /** The export once the staging directory exists and a mesh is selected. */
  method PurgeAndStage(fs: FileSystem, hex: string, blob: string) returns (exit: ExportExit)
    requires fs.Valid() && IsHex32(hex)
    requires TempPath in fs.entries && fs.entries[TempPath] == Dir && ExportKey(hex) !in fs.entries
    modifies fs
    ensures fs.Valid()
    ensures ExportResult(exit, fs.entries) == ExportTail(old(fs.entries), hex, blob)
  {
    ghost var g := fs.entries;
    var purged := PurgeOldFiles(fs, HouImportFile);
    if purged == PurgeListIsDirectory {
      return ListIsDirectory;
    }
    if purged == PurgeUnlinkFailed {
      return PurgeRaised;
    }
    ExportBase(g, hex);
    PurgeSafety(g, HouImportFile);
    var stuck := RemoveFile(fs, HouImportFile);
    assert !stuck;
    StageExport(fs, hex, blob);
    return DoneExporting;
  }

  /** The host's export of the selection into `hou_<hex>.abc`, then the line
      appended to the freshly removed list. */
  method StageExport(fs: FileSystem, hex: string, blob: string)
    requires fs.Valid() && IsHex32(hex)
    requires TempPath in fs.entries && fs.entries[TempPath] == Dir
    requires HouImportFile !in fs.entries && ExportKey(hex) !in fs.entries
    modifies fs
    ensures fs.Valid()
    ensures fs.entries == StageWrites(old(fs.entries), HouImportFile, [ExportKey(hex)], [blob], 1)
  {
    ghost var base := fs.entries;
    var key := TempPath + [ExportFileName(hex)];
    assert key[|key| - 1] == ExportFileName(hex) && HouImportFile[|HouImportFile| - 1] == "hou_import";
    ExportFileStageable(hex);
    Stage(fs, HouImportFile, key, blob);
    assert StageWrites(base, HouImportFile, [key], [blob], 0) == base;
  }

  /** A plain file in the way of the staging directory cancels the export
      before anything is written. */
  lemma ExportRefusedByFile(m: map<Key, Node>, selected: seq<SceneObject>, hex: string, blob: string)
    requires TempPath in m && m[TempPath].File?
    ensures ExportCycle(m, selected, hex, blob) == ExportResult(TempPathIsFile, m)
    ensures ExportStatus(TempPathIsFile) == Status(Cancelled, Info)
  {
  }

  /** With no mesh selected the export finishes without purging, removing or
      writing: the only change is the guard creating the staging directory. */
  lemma ExportNoMeshes(m: map<Key, Node>, selected: seq<SceneObject>, hex: string, blob: string)
    requires forall i :: 0 <= i < |selected| ==> selected[i].objectType != "MESH"
    ensures ExportCycle(m, selected, hex, blob).exit in {TempPathIsFile, NothingToExport}
    ensures ExportCycle(m, selected, hex, blob).entries == Guard(m, TempPath).entries
    ensures ExportCycle(m, selected, hex, blob).exit == NothingToExport ==>
      ExportStatus(NothingToExport) == Status(Finished, Info)
  {
    MeshesEmpty(selected);
  }

  /** A hou import list that is a directory cancels the export before the
      list is removed and before anything is written. */
  lemma ExportListIsDirectory(m: map<Key, Node>, selected: seq<SceneObject>, hex: string, blob: string)
    requires TempPath in m && m[TempPath] == Dir
    requires HouImportFile in m && m[HouImportFile] == Dir
    requires exists i :: 0 <= i < |selected| && selected[i].objectType == "MESH"
    ensures ExportCycle(m, selected, hex, blob) == ExportResult(ListIsDirectory, m)
    ensures ExportStatus(ListIsDirectory) == Status(Cancelled, Error)
  {
    MeshesAreMeshes(selected);
    var i :| 0 <= i < |selected| && selected[i].objectType == "MESH";
    assert selected[i] in Meshes(selected);
  }

  /** The path recorded for `hou_<hex>.abc`: its text, written on one line,
      parsing back to the file's location under the temp root. */
  lemma ExportEntry(hex: string)
    requires IsHex32(hex)
    ensures EntryFor(ExportKey(hex)) == "/tmp/houdini_blender/hou_" + hex + ".abc"
    ensures Writable(EntryFor(ExportKey(hex)))
    ensures Parse(EntryFor(ExportKey(hex))) == PurePath("/", ExportKey(hex))
    ensures UnderTempRoot(PurePath("/", ExportKey(hex)))
  {
    ExportFileStageable(hex);
    var f := ExportFileName(hex);
    StagedEntry(f);
    StagedEntryText(f);
    assert "/tmp/houdini_blender/" + f == "/tmp/houdini_blender/hou_" + hex + ".abc";
  }

  /** After a successful export the hou import list holds exactly one line,
      the recorded path of `hou_<hex>.abc`, and that file holds what the host
      exported. */
  lemma ExportSucceeds(m: map<Key, Node>, selected: seq<SceneObject>, hex: string, blob: string)
    requires ExportReady(m, hex)
    requires ExportCycle(m, selected, hex, blob).exit == DoneExporting
    ensures var r := ExportCycle(m, selected, hex, blob).entries;
      && WellFormed(r)
      && HouImportFile in r && r[HouImportFile] == File(EntryFor(ExportKey(hex)) + "\n")
      && ReadEntries(r[HouImportFile].contents) == [EntryFor(ExportKey(hex))]
      && ExportKey(hex) in r && r[ExportKey(hex)] == File(blob)
  {
    var g := Guard(m, TempPath).entries;
    assert ExportCycle(m, selected, hex, blob) == ExportTail(g, hex, blob);
    assert WellFormed(g) && TempPath in g && g[TempPath] == Dir && ExportKey(hex) !in g;
    ExportBase(g, hex);
    var base := Purge(g, HouImportFile).entries - {HouImportFile};
    assert ExportCycle(m, selected, hex, blob).entries == StageWrites(base, HouImportFile, [ExportKey(hex)], [blob], 1);
    StagedOnce(base, hex, blob);
  }

  /** Staging `hou_<hex>.abc` into a tree without the list leaves the list
      holding its one recorded line and the file holding its data. */
  lemma StagedOnce(base: map<Key, Node>, hex: string, blob: string)
    requires WellFormed(base) && TempPath in base && base[TempPath] == Dir && IsHex32(hex)
    requires HouImportFile !in base && ExportKey(hex) !in base
    requires ExportKey(hex) != HouImportFile && Up(ExportKey(hex)) == TempPath
    ensures var r := StageWrites(base, HouImportFile, [ExportKey(hex)], [blob], 1);
      && WellFormed(r)
      && HouImportFile in r && r[HouImportFile] == File(EntryFor(ExportKey(hex)) + "\n")
      && ReadEntries(r[HouImportFile].contents) == [EntryFor(ExportKey(hex))]
      && ExportKey(hex) in r && r[ExportKey(hex)] == File(blob)
  {
    var keys := [ExportKey(hex)];
    assert keys[..1] == keys;
    assert EntriesFor(keys) == [EntryFor(ExportKey(hex))];
    StageWritesList(base, HouImportFile, keys, [blob], 1);
    StageWritesFiles(base, HouImportFile, keys, [blob], 1);
    StageWritesWellFormed(base, TempPath, HouImportFile, keys, [blob], 1);
    ExportEntry(hex);
    ReadEntriesRender([EntryFor(ExportKey(hex))]);
  }

  /** The next export's purge removes exactly the file this export staged
      and nothing else. */
  lemma ExportPurgedByNext(m: map<Key, Node>, selected: seq<SceneObject>, hex: string, blob: string)
    requires ExportReady(m, hex)
    requires ExportCycle(m, selected, hex, blob).exit == DoneExporting
    ensures var r := ExportCycle(m, selected, hex, blob).entries;
      Purge(r, HouImportFile) == PurgeResult(Purged, r - {ExportKey(hex)})
  {
    var r := ExportCycle(m, selected, hex, blob).entries;
    ExportSucceeds(m, selected, hex, blob);
    ExportFileStageable(hex);
    PurgeOfOneStaged(r, HouImportFile, ExportFileName(hex));
  }

  // ---------------------------------------------------------------------
  // HoudiniImportOp.execute

  datatype ImportExit =
    | GuardRefused           // temp path is a file: INFO report, CANCELLED
    | NothingToImport        // INFO report, CANCELLED
    | ImportListIsDirectory  // ERROR report, CANCELLED
    | ImportListEmpty        // no listed path exists: WARNING report, CANCELLED
    | DoneWithMissing        // INFO report, FINISHED
    | DoneImporting          // no report, FINISHED
    | ExistsRaised           // `exists()` raised for a line; the exception escapes

  /** What the operator returns and reports; the exception returns nothing. */
  function ImportStatus(exit: ImportExit): Status
    requires exit != ExistsRaised
  {
    match exit
    case GuardRefused => Status(Cancelled, Info)
    case NothingToImport => Status(Cancelled, Info)
    case ImportListIsDirectory => Status(Cancelled, Error)
    case ImportListEmpty => Status(Cancelled, Warning)
    case DoneWithMissing => Status(Finished, Info)
    case DoneImporting => Status(Finished, NoReport)
  }

  /** The exit, the paths handed to the Alembic importer in order, and the
      filesystem afterwards. */
  datatype ImportResult = ImportResult(exit: ImportExit, imported: seq<string>, entries: map<Key, Node>)

  function ImportCycle(m: map<Key, Node>, cwd: Key): ImportResult {
    var g := Guard(m, TempPath);
    if !g.ready then ImportResult(GuardRefused, [], g.entries)
    else
      var present := FileExists(g.entries, BlendImportFile);
      if present == 1 then ImportResult(NothingToImport, [], g.entries)
      else if present == 2 then ImportResult(ImportListIsDirectory, [], g.entries)
      else
        var es := ReadEntries(g.entries[BlendImportFile].contents);
        if AnyRaises(g.entries, cwd, es) then ImportResult(ExistsRaised, [], g.entries)
        else ListedResult(ExistingPaths(g.entries, cwd, es), AnyMissing(g.entries, cwd, es), g.entries)
  }

  /** The end of an import once the list was read into `paths` and `missing`. */
  function ListedResult(paths: seq<string>, missing: bool, entries: map<Key, Node>): ImportResult {
    if paths == [] then ImportResult(ImportListEmpty, [], entries)
    else ImportResult(if missing then DoneWithMissing else DoneImporting, paths, entries)
  }

  /** `HoudiniImportOp.execute`; the guard may create the staging
      directory, nothing else is written. */
  method BlenderImport(fs: FileSystem) returns (exit: ImportExit, imported: seq<string>)
    requires fs.Valid() && TempRoot in fs.entries && fs.entries[TempRoot] == Dir
    modifies fs
    ensures fs.Valid()
    ensures ImportResult(exit, imported, fs.entries) == ImportCycle(old(fs.entries), fs.cwd)
  {
    assert TempPath[|TempPath| - 1] == "houdini_blender";
    var ready := TempPathExists(fs, TempPath);
    if !ready {
      return GuardRefused, [];
    }
    var present := FileExists(fs.entries, BlendImportFile);
    if present == 1 {
      return NothingToImport, [];
    }
    if present == 2 {
      return ImportListIsDirectory, [];
    }
    var paths, missing, raised := PartitionListed(fs, BlendImportFile);
    if raised {
      return ExistsRaised, [];
    }
    if |paths| == 0 {
      return ImportListEmpty, [];
    }
    imported := ImportEach(paths);
    exit := if missing then DoneWithMissing else DoneImporting;
  }

  /** The import never writes beyond the guard, an `exists()` that raises
      imports nothing, and otherwise the operator cancels exactly when it
      imports nothing. */
  lemma ImportCases(m: map<Key, Node>, cwd: Key)
    ensures ImportCycle(m, cwd).entries == Guard(m, TempPath).entries
    ensures ImportCycle(m, cwd).exit == ExistsRaised ==> ImportCycle(m, cwd).imported == []
    ensures ImportCycle(m, cwd).exit != ExistsRaised ==>
      (ImportStatus(ImportCycle(m, cwd).exit).result == Cancelled <==> ImportCycle(m, cwd).imported == [])
  {
    var g := Guard(m, TempPath);
    if g.ready && FileExists(g.entries, BlendImportFile) == 0
      && !AnyRaises(g.entries, cwd, ReadEntries(g.entries[BlendImportFile].contents))
    {
      var es := ReadEntries(g.entries[BlendImportFile].contents);
      var paths := ExistingPaths(g.entries, cwd, es);
      var missing := AnyMissing(g.entries, cwd, es);
      assert ImportCycle(m, cwd) == ListedResult(paths, missing, g.entries);
      ListedResultCancels(paths, missing, g.entries);
    }
  }

  lemma ListedResultCancels(paths: seq<string>, missing: bool, entries: map<Key, Node>)
    ensures ListedResult(paths, missing, entries).entries == entries
    ensures ImportStatus(ListedResult(paths, missing, entries).exit).result == Cancelled <==>
      ListedResult(paths, missing, entries).imported == []
  {
  }

  /** The import cancels before reading anything exactly when the guard
      fails, the list is absent or the list is a directory. */
  lemma ImportRefusals(m: map<Key, Node>, cwd: Key)
    requires WellFormed(m)
    ensures var r := ImportCycle(m, cwd);
      && (r.exit == GuardRefused <==> TempPath in m && m[TempPath].File?)
      && (r.exit == NothingToImport <==> BlendImportFile !in m && !(TempPath in m && m[TempPath].File?))
      && (r.exit == ImportListIsDirectory <==> BlendImportFile in m && m[BlendImportFile] == Dir)
  {
    var g := Guard(m, TempPath);
    assert BlendImportFile != TempPath;
    if BlendImportFile in m {
      assert Up(BlendImportFile) == TempPath;
      assert TempPath in m && m[TempPath] == Dir;
    }
    assert BlendImportFile in g.entries <==> BlendImportFile in m;
    assert BlendImportFile in m ==> g.entries[BlendImportFile] == m[BlendImportFile];
  }

  /** Once the list is read, a line for which `exists()` raises ends the
      import with nothing imported. Otherwise the import hands the importer
      exactly the listed paths that exist, in file order, and all of them
      when none is missing. */
  lemma ImportReads(m: map<Key, Node>, cwd: Key)
    requires WellFormed(m) && BlendImportFile in m && m[BlendImportFile].File?
    ensures var es := ReadEntries(m[BlendImportFile].contents);
      var r := ImportCycle(m, cwd);
      && (r.exit == ExistsRaised <==> AnyRaises(m, cwd, es))
      && (r.exit == ExistsRaised ==> r.imported == [])
    ensures var es := ReadEntries(m[BlendImportFile].contents);
      var r := ImportCycle(m, cwd);
      !AnyRaises(m, cwd, es) ==>
      && r.imported == ExistingPaths(m, cwd, es)
      && (r.exit == ImportListEmpty <==> forall e :: e in es ==> !ExistsAt(m, cwd, e))
      && (r.exit == DoneImporting ==> r.imported == es)
      && (r.exit == DoneWithMissing <==> r.imported != [] && AnyMissing(m, cwd, es))
  {
    assert Up(BlendImportFile) == TempPath;
    assert Guard(m, TempPath).entries == m;
    var es := ReadEntries(m[BlendImportFile].contents);
    ExistingPathsLaw(m, cwd, es);
    var paths := ExistingPaths(m, cwd, es);
    if paths != [] {
      assert paths[0] in paths;
    }
  }
}
