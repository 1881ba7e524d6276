# Houdini–Blender clipboard: the transfer ledger

This project models, in Dafny, the part of the Houdini–Blender clipboard
plug-ins that moves geometry between the two programs through files. Each side
"yanks" its selection. It writes Alembic files into a staging directory
(`<tempdir>/houdini_blender`) and records their resolved paths, one per line,
in a list file for the other side: `blend_import` for Blender,
`hou_import` for Houdini. Each side "pastes" by reading the other side's list,
stripping every line, and importing every listed path that exists. Before a
new yank, the files named by the side's previous list are purged. A lexical
safeguard keeps every purged path lexically under the temp root. The list is
then removed and written again.

Modules, following the Python files:

- `Text` (`text.dfy`) models the text-mode reads the plug-ins rely on:
  - universal-newline decoding, `readlines()`, and `str.strip()` with
    Python's whitespace set;
  - the one-path-per-line layout the exporters write;
  - the line round trip between the two.
- `Paths` (`paths.dfy`) models `pathlib.PurePosixPath`: parsing (the anchors
  "", "/" and "//"; "." dropped; ".." kept), `str()` and `parents`.
- `Files` (`files.dfy`) is the filesystem:
  - a `FileSystem` class whose `entries` map canonical locations to plain
    files or directories, plus the working directory, which is always an
    existing directory;
  - the kernel's lookup of a path string: ENOENT, ENOTDIR, `..`, and
    ENAMETOOLONG for a component over `NAME_MAX` (255) bytes or a path of
    `PATH_MAX` (4096) bytes or more;
  - `Path.exists()`, which reads a NUL, ENOENT or ENOTDIR as "does not
    exist" and lets ENAMETOOLONG escape;
  - `mkdir`, `unlink`, `rmdir`, append and a host's whole-file write.
- `ListStore` (`list_store.dfy`) covers the list files:
  - staging (the host writes a file; its path is appended to the list);
  - the reading loop that splits the stripped lines into existing paths and
    a `missing` flag;
  - the import loop.
- `Common` (`common.dfy`) is `scripts/python/common.py`:
  - the path constants;
  - `temp_path_exists`, `purge_old_files` (as a method and as the
    function `Purge` that specifies it) and `remove_file`;
  - the purge's safety, frame and idempotence properties.
- `HoudiniManual` (`houdini_manual.dfy`) models `houdini_export` and
  `houdini_import`.
- `BlenderManual` (`blender_manual.dfy`) models `file_exists`,
  `HoudiniExportOp.execute` (the "Yank" operator) and
  `HoudiniImportOp.execute` (the "Paste" operator).
- `Handoff` (`handoff.dfy`) proves the hand-off in both directions. A
  successful export on one side is read in full, in order and with nothing
  missing, by the other side's import.

Each imperative operation is a method. Each method is proved to produce
exactly the state or result given by a specification function: `Guard`,
`Purge`, the `ExportCycle` functions of both plug-ins, `ImportOutcome` and
`ImportCycle`. The properties are lemmas about those functions. The host
programs are reduced to parameters:
- the selection;
- the `uuid1().hex` strings;
- the bytes each Alembic export writes.

Three behaviours of the code are worth knowing; the model keeps all three as
the code has them.

- The safeguard `PurePath(tempfile.gettempdir()) in pure_path.parents` is
  lexical. `Common.DotDotPassesSafeguard` shows that a list holding the single
  line `/tmp/../<k>` makes the purge unlink any plain file `k`. Only for
  lines without ".." does the purge stay inside the temp root on disk
  (`Common.PurgeStaysInsideWithoutDotDot`).
- A blank line parses to `.`, the working directory. The importers'
  `Path(line.strip()).exists()` therefore counts a blank line as an existing
  path whenever the working directory exists, and passes the empty string to
  the importer. The model keeps this.
- `purge_old_files` ignores a failing unlink only when the file is missing.
  The exception escapes when a line that passed the safeguard:
  - names a directory;
  - has a plain file as a parent;
  - holds a NUL;
  - has a component over `NAME_MAX` bytes;
  - is `PATH_MAX` bytes or longer.
  The export then ends without removing or rewriting the list. This is the
  `PurgeRaised` exit. In the same way, an `exists()` that raises on a line
  the importers read ends the import before anything is imported. This is
  the `ExistsRaised` exit.

## Model

| member | source | states |
|---|---|---|
| Text.Strip | scripts/python/common.py:41 | the result has no whitespace at either end, is shorter or equal, is empty exactly when the line is all whitespace, and equals the line exactly when the line has no surrounding whitespace |
| Text.TrimStart | scripts/python/common.py:41 | the result is a suffix of the line that does not start with whitespace, and nothing but whitespace was dropped |
| Text.TrimEnd | scripts/python/common.py:41 | the result is a prefix of the line that does not end with whitespace, and nothing but whitespace was dropped |
| Text.StripIdempotent | scripts/python/common.py:41 | stripping a stripped line changes nothing |
| Text.StripDropsTrailingSpace | scripts/python/houdini_manual.py:71 | the newline written after each path is removed again by `strip()` |
| Text.Translate | scripts/python/common.py:38 | text-mode decoding leaves no carriage return and never lengthens the text |
| Text.TranslatePlain | scripts/python/common.py:38 | text without carriage returns reads back unchanged in text mode |
| Text.LineLength | scripts/python/common.py:39 | the first line ends at the first newline, or at the end of the text |
| Text.ReadLinesShape | scripts/python/common.py:39 | `readlines()` yields non-empty lines, each newline ends a line, and only the last line may lack one |
| Text.ReadLinesConcat | scripts/python/common.py:39 | joining the lines `readlines()` returns gives the whole text back |
| Text.ReadLines | scripts/python/common.py:39 | the specification of `readlines()`: each line runs up to and including the next newline; its properties are `Text.ReadLinesShape` and `Text.ReadLinesConcat` |
| Text.RenderSnoc | scripts/python/houdini_manual.py:70-71 | appending one path and a newline extends the list text by exactly that line |
| Text.ReadEntries | scripts/python/houdini_manual.py:102-103 | the specification of reading a list: `readlines()` on the decoded text, then `strip()` of every line, one entry per line in file order; `Text.ReadEntriesAt` and `Text.ReadEntriesRender` state its properties |
| Text.ReadEntriesRender | scripts/python/houdini_manual.py:101-106 | paths with no newline and no surrounding whitespace, written one per line, are read back by readlines and strip as the same paths in the same order |
| Paths.Parse | scripts/python/common.py:41 | a path is relative exactly when it does not start with a slash; every kept component is non-empty, not "." and has no slash |
| Paths.ParentsIff | scripts/python/common.py:47 | `q in p.parents` holds exactly when q has the same anchor and its components are a proper prefix of p's |
| Paths.Parents | scripts/python/common.py:47 | the specification of `.parents`: every proper ancestor, nearest first, down to the anchor; `Paths.ParentsIff` characterises membership |
| Paths.ParseFormat | scripts/python/houdini_manual.py:57 | printing an absolute path with `str()` and parsing the text again gives the same path |
| Files.Utf8LengthBound | scripts/python/houdini_manual.py:103 | each character takes one to four bytes in the UTF-8 encoding the OS applies to path strings |
| Files.FitsIff | scripts/python/houdini_manual.py:103 | the length tests are exact: a component fits exactly when its UTF-8 encoding is at most `NAME_MAX` bytes, and a path fits exactly when it is shorter than `PATH_MAX` bytes |
| Files.Walk | scripts/python/houdini_manual.py:103 | the specification of the kernel lookup, component by component: ENAMETOOLONG for a component over `NAME_MAX` bytes, ENOTDIR through a plain file, ENOENT for a missing component, and `..` moving up; `Files.WalkPlain` and `Common.WalkUpAgain` state its properties |
| Files.Resolve | scripts/python/blender_manual.py:53 | the specification of resolving a path string: ENAMETOOLONG for `PATH_MAX` bytes or more, otherwise a lookup from the root, or from the working directory for a relative path |
| Files.ExistsAt | scripts/python/houdini_manual.py:103 | the specification of `Path(s).exists()` returning True: no NUL, and the lookup finds an entry; `ListStore.EntryForExists` and `Common.StagedEntryExists` state when it holds |
| Files.ExistsRaises | scripts/python/blender_manual.py:53 | the specification of `Path(s).exists()` raising: no NUL, and the lookup fails with ENAMETOOLONG |
| Files.WalkPlain | scripts/python/houdini_manual.py:103 | looking up components without ".." finds exactly the location they spell out, and succeeds whenever that location exists |
| Files.WalkPlainKey | scripts/python/houdini_manual.py:103 | without "..", a lookup that succeeds lands on the location the components spell out |
| Files.WalkPlainFits | scripts/python/houdini_manual.py:103 | without "..", and with every component within `NAME_MAX`, the lookup never fails for length and finds every existing entry |
| Files.WalkAfterRemovingFiles | scripts/python/common.py:48 | removing plain files changes no lookup that did not fail with ENOTDIR, and every lookup that succeeds afterwards succeeded before |
| Files.RemovingFilesKeepsWellFormed | scripts/python/common.py:48 | removing plain files keeps the tree well formed |
| Files.WriteKeepsWellFormed | scripts/python/houdini_manual.py:70-71 | writing a plain file inside an existing directory keeps the tree well formed |
| Files.FileSystem.Mkdir | scripts/python/common.py:23 | creates exactly the directory, inside an existing directory |
| Files.FileSystem.Unlink | scripts/python/common.py:58 | removes exactly the plain file |
| Files.FileSystem.Rmdir | scripts/python/common.py:56 | removes exactly the empty directory, which is neither the root nor the working directory |
| Files.FileSystem.Append | scripts/python/houdini_manual.py:70-71 | opening for append creates the file when missing and adds the text after the current contents |
| Files.Appended | scripts/python/houdini_manual.py:70-71 | the specification of `open(path, 'a').write(text)`: the file holds its old text, or "" when it was absent, followed by `text`, and no other entry changes; `Text.RenderSnoc` and `ListStore.StageWritesList` state what repeated appends leave in the list |
| Files.FileSystem.Write | scripts/python/houdini_manual.py:66 | the host's export replaces exactly one plain file |
| ListStore.StageWritesList | scripts/python/houdini_manual.py:52-71 | after n items are staged into a freshly removed list, the list holds exactly their paths, one per line, in staging order |
| ListStore.StageWrites | scripts/python/houdini_manual.py:52-71 | the specification of the staging loop after n items: the host writes each file, then its path and a newline are appended to the list; the `ListStore.StageWrites…` lemmas state its properties |
| ListStore.StageWritesFiles | scripts/python/houdini_manual.py:52-71 | every staged file holds the data the host wrote for it |
| ListStore.StageWritesFrame | scripts/python/houdini_manual.py:52-71 | staging changes no entry other than the list and the staged files, and adds no other entry |
| ListStore.StageWritesWellFormed | scripts/python/houdini_manual.py:52-71 | staging into an existing directory keeps the tree well formed, keeps every directory and creates none |
| ListStore.StageWritesDirs | scripts/python/houdini_manual.py:52-71 | staging plain files, when neither the list nor a staged file is a directory, neither creates nor removes a directory |
| ListStore.StageWriteKeepsWellFormed | scripts/python/houdini_manual.py:66-71 | one staging step inside an existing directory keeps the tree well formed |
| ListStore.StageStepReady | scripts/python/houdini_manual.py:52-71 | before each staging step the tree is well formed, the staging directory exists, and neither the next file nor the list is a directory |
| ListStore.Stage | scripts/python/houdini_manual.py:66-71 | one step: the host writes the file, then its path and a newline are appended to the list |
| ListStore.KeptMembers | scripts/python/houdini_manual.py:102-106 | filtering keeps exactly the lines that pass the test |
| ListStore.KeptLength | scripts/python/houdini_manual.py:102-106 | the filter never lengthens the lines; it shortens them exactly when one fails the test, and keeps all of them otherwise |
| ListStore.KeptAppend | scripts/python/blender_manual.py:52-56 | filtering a concatenation filters each piece in turn |
| ListStore.ExistingPaths | scripts/python/houdini_manual.py:101-106 | the specification of `file_paths`: the stripped lines whose `exists()` is True, in file order; `ListStore.ExistingPathsLaw` states its property |
| ListStore.ExistingPathsLaw | scripts/python/houdini_manual.py:101-106 | `file_paths` holds exactly the stripped lines whose path exists; `missing` is set exactly when one is dropped; with nothing missing every line is kept |
| ListStore.ExistingPathsEmpty | scripts/python/houdini_manual.py:108-111 | nothing is kept exactly when no listed path exists |
| ListStore.ExistingPathsAppend | scripts/python/blender_manual.py:51-56 | the reading loop keeps file order: the lines of a concatenation are filtered piece by piece |
| ListStore.PathsStep | scripts/python/blender_manual.py:53-56 | one more line read: it is appended to `file_paths` exactly when its path exists |
| ListStore.MissingStep | scripts/python/blender_manual.py:53-54 | one more line read: it sets `missing` exactly when its path does not exist |
| ListStore.DroppedStep | scripts/python/blender_manual.py:53-54 | a line is dropped from a prefix one longer exactly when it was dropped before or the new line fails the test |
| ListStore.RaisesStep | scripts/python/blender_manual.py:53 | one more line for which `exists()` does not raise keeps the lines read so far free of raises |
| ListStore.PartitionListed | scripts/python/blender_manual.py:51-56 | the reading loop returns the existing stripped lines in order and the `missing` flag, and reports whether `exists()` raised for a line; after a raise it reads no further line |
| ListStore.ImportEach | scripts/python/blender_manual.py:63-64 | the host importer is called once per existing path, in order |
| ListStore.EntryForExists | scripts/python/houdini_manual.py:103 | a recorded path names an existing path exactly when its file exists, and `exists()` never raises for it |
| Common.LedgerLocations | scripts/python/common.py:6-8 | `TEMP_PATH` lies directly in the temp root, and `BLEND_IMPORT_FILE` and `HOU_IMPORT_FILE` are two distinct files directly in it, written "/tmp/houdini_blender/blend_import" and "/tmp/houdini_blender/hou_import" |
| Common.StagedEntryText | scripts/python/blender_manual.py:103 | the recorded path of staged file f is "/tmp/houdini_blender/" followed by f |
| Common.StagedEntryWritable | scripts/python/houdini_manual.py:71 | the recorded path of a staged file has no newline or carriage return and no surrounding whitespace |
| Common.StagedEntryEncodable | scripts/python/houdini_manual.py:57 | the recorded path of a staged file is shorter than `PATH_MAX` bytes and has no NUL |
| Common.StagingPrefix | scripts/python/common.py:6 | a name within `NAME_MAX` and without NUL, put after "/tmp/houdini_blender/", gives a path the OS accepts: shorter than `PATH_MAX` bytes and without NUL |
| Common.StagedEntry | scripts/python/houdini_manual.py:56-57 | the recorded path of a staged file can be written on one line, parses back to the file's location, and lies under the temp root |
| Common.StagedEntryExists | scripts/python/blender_manual.py:53 | a recorded staged path exists exactly when its file does, and `exists()` never raises for it |
| Common.StagedKeyParts | scripts/python/houdini_manual.py:57 | every component of a staged file's location is a name within `NAME_MAX`, and none is ".." |
| Common.TempPathExists | scripts/python/common.py:11-24 | an absent path becomes exactly one new directory and True; an existing directory gives True and no change; a plain file gives False and no change |
| Common.Guard | scripts/python/common.py:11-24 | the specification of `temp_path_exists`: a missing path becomes a directory and True, a directory gives True, a plain file gives False; `Common.GuardCases` and `Common.GuardIdempotent` state its properties |
| Common.GuardCases | scripts/python/common.py:18-24 | the guard's three cases: create exactly the directory, accept a directory unchanged, refuse a plain file and keep its contents |
| Common.GuardIdempotent | scripts/python/common.py:18-21 | calling the guard twice has the effect and the result of calling it once |
| Common.UnderTempRootIff | scripts/python/common.py:47 | a parsed line passes the safeguard exactly when it is anchored at "/" and the temp root's components are a proper prefix of its own |
| Common.UnderTempRoot | scripts/python/common.py:47 | the specification of the safeguard `PurePath(tempfile.gettempdir()) in pure_path.parents`; `Common.UnderTempRootIff` characterises it |
| Common.SafeguardRefuses | scripts/python/common.py:40-48 | blank lines, relative paths, the "//" anchor, the temp root itself and paths outside it never pass the safeguard |
| Common.Targets | scripts/python/common.py:39-41 | the purge loop visits one parsed path per stripped line |
| Common.TargetsAt | scripts/python/common.py:40-41 | the i-th target is the i-th stripped line, parsed |
| Common.UnlinkListed | scripts/python/common.py:47-48 | the specification of one loop step: a line outside the temp root is skipped; one that passes raises for a NUL, a name or path too long, a plain-file parent or a directory, is skipped when missing, and is unlinked when a plain file; `Common.UnlinkListedFrame` states its frame |
| Common.PurgeLines | scripts/python/common.py:40-48 | the specification of the purge loop, which stops at the first exception; `Common.RaisedSticks` and `Common.PurgeLinesFrame` state its properties |
| Common.RaisedSticks | scripts/python/common.py:40-48 | once an unlink has raised, later lines are never processed |
| Common.PurgeOldFiles | scripts/python/common.py:27-49 | the purge's result and new state are those of `Purge`: an absent list gives True and no change; a directory gives False and no change; otherwise each safeguarded line is unlinked in order, missing files are skipped, and an unlink error (a directory, a plain-file parent, a NUL, a name over `NAME_MAX`, a path of `PATH_MAX` or more) ends the purge |
| Common.Purge | scripts/python/common.py:27-49 | the specification of `purge_old_files`: True and no change for an absent list, False and no change for a directory, else the loop over the targets; `Common.PurgeSafety`, `Common.PurgeIdempotent` and `Common.PurgeOfGoneFiles` state its properties |
| Common.UnlinkIfUnderTempRoot | scripts/python/common.py:47-48 | one loop step: unlink when the line passes the safeguard; skip a missing file; raise for a directory, a plain-file parent, a NUL, a name over `NAME_MAX` or a path of `PATH_MAX` or more |
| Common.LongNameRaises | scripts/python/common.py:47-48 | a line naming a file in the staging directory whose name is over `NAME_MAX` passes the safeguard, and its unlink raises (ENAMETOOLONG) instead of counting as a missing file |
| Common.UnlinkListedFrame | scripts/python/common.py:47-48 | one unlink removes at most a plain file named by its line through the safeguard |
| Common.PurgeLinesFrame | scripts/python/common.py:40-48 | the purge loop removes only plain files, and only ones named by some line |
| Common.TargetOfEntry | scripts/python/common.py:40-41 | every target comes from a stripped line of the list |
| Common.PurgeSafety | scripts/python/common.py:27-49 | the purge changes no entry except by removing plain files, and each removed entry is named by a line of the list that passed the safeguard |
| Common.PurgeKeepsDirectories | scripts/python/common.py:48 | after a purge the tree is well formed and every directory is still there |
| Common.ListSurvivesUnlessNamed | scripts/python/common.py:38-49 | the list file survives the purge unchanged unless one of its own lines names it |
| Common.PurgeStaysInsideWithoutDotDot | scripts/python/common.py:42-48 | when no line contains "..", every removed entry lies strictly inside the temp root |
| Common.PlainNameUnderRoot | scripts/python/common.py:47-48 | a path without ".." that passes the safeguard names only an entry strictly inside the temp root |
| Common.WalkUpAgain | scripts/python/common.py:48 | the OS resolves a component followed by ".." back to the directory it started from |
| Common.ClimbOutParses | scripts/python/common.py:41 | the line "/tmp/../k" parses back to the path it was printed from, ".." kept |
| Common.ClimbOutResolves | scripts/python/common.py:48 | the safeguard accepts "/tmp/../k", and the OS resolves it to k |
| Common.ClimbOutTargets | scripts/python/common.py:39-41 | a list holding the one line "/tmp/../k" has that path as its one target |
| Common.ClimbOutUnlinks | scripts/python/common.py:47-48 | the purge step for "/tmp/../k" unlinks the plain file k |
| Common.PurgeLinesOne | scripts/python/common.py:40-48 | the purge loop over one target is that target's step |
| Common.DotDotPassesSafeguard | scripts/python/common.py:47 | the safeguard is lexical: the line "/tmp/../k" passes it and the purge removes the plain file k wherever it lies |
| Common.PurgeOfGoneFiles | scripts/python/common.py:48-49 | when every listed file is already gone or refused, the purge returns True and changes nothing |
| Common.SettledAfterRemovingFiles | scripts/python/common.py:48 | a line whose step would change nothing and raise nothing stays so after plain files are removed |
| Common.PurgeLinesOfSettled | scripts/python/common.py:40-48 | a loop over lines whose steps each change nothing and raise nothing changes nothing and returns normally |
| Common.UnlinkListedSettles | scripts/python/common.py:47-48 | a step that does not raise removes only plain files, and afterwards its line's step changes nothing and raises nothing |
| Common.PurgeLinesSettles | scripts/python/common.py:40-48 | after a loop that did not raise, the step of every line changes nothing and raises nothing |
| Common.PurgeIdempotent | scripts/python/common.py:48-49 | a second purge after a successful one returns True and changes nothing |
| Common.PurgedListIsNoDirectory | scripts/python/common.py:32-36 | a purge that returned True leaves the list absent or a plain file, so the removal that follows never meets a directory |
| Common.PurgeOfStaged | scripts/python/common.py:38-48 | a list holding the recorded paths of staged files that are all present makes the purge remove exactly those files |
| Common.StagedKeys | scripts/python/houdini_manual.py:56-57 | each staged file lies directly in the staging directory |
| Common.Anchored | scripts/python/houdini_manual.py:57 | the absolute path of each staged location |
| Common.KeySetSnoc | scripts/python/common.py:48 | the set of staged locations grows by one per staged file |
| Common.KeySetPrefix | scripts/python/common.py:48 | the locations of the first n staged files are those of the first n - 1 plus the n-th |
| Common.StagedTargets | scripts/python/common.py:39-41 | the list of staged paths has their absolute paths as its targets, in order |
| Common.PurgeStagedStep | scripts/python/common.py:47-48 | the purge step for a present staged file removes it alone |
| Common.PurgeLinesLast | scripts/python/common.py:40-48 | the loop over n targets is the loop over n - 1 followed by the last step |
| Common.PurgeLinesNext | scripts/python/common.py:40-48 | after n - 1 targets ran without raising, the n-th step finishes the loop over n |
| Common.StagedUnlinkStep | scripts/python/common.py:47-48 | once the earlier staged files are gone, the next one is unlinked and nothing else changes |
| Common.StagedKeysFresh | scripts/python/houdini_manual.py:56-57 | with distinct names, each staged location differs from the ones staged before it |
| Common.StagedKeysRemovable | scripts/python/common.py:48 | when every staged file is present, removing the first n of them removes only plain files |
| Common.PurgeLinesOfStaged | scripts/python/common.py:40-48 | the loop over the first n staged paths removes exactly those n files |
| Common.PurgeLinesOfAllStaged | scripts/python/common.py:40-48 | the loop over every staged path removes exactly the staged files |
| Common.PurgeOfTargets | scripts/python/common.py:38-49 | a purge whose loop finishes without raising returns True with the loop's state |
| Common.PurgeOfOneStaged | scripts/python/common.py:38-48 | a list holding the recorded path of one present staged file makes the purge remove that file alone |
| Common.RemoveFile | scripts/python/common.py:52-58 | a plain file or an empty directory is removed, an absent path is left alone, and rmdir of a non-empty directory raises without changing anything |
| HoudiniManual.ExportFileName | scripts/python/houdini_manual.py:56 | the name `<sop name>_<hex>.abc` of one staged file; `HoudiniManual.ExportFileNameStageable` and `ExportFileNameInjective` state its properties |
| HoudiniManual.ExportSeverity | scripts/python/houdini_manual.py:26-73 | the severity each export exit shows: Error for a file at the temp path and for a directory list, ImportantMessage for an empty selection, Message when done; `HoudiniManual.ExportRefusedByFile`, `ExportNothingSelected` and `ExportListIsDirectory` state it for the early exits |
| HoudiniManual.ExportNames | scripts/python/houdini_manual.py:56 | one file name per SOP, built from its name and its identifier |
| HoudiniManual.ExportKeys | scripts/python/houdini_manual.py:57 | one location per SOP, directly in the staging directory |
| HoudiniManual.ExportFileNameStageable | scripts/python/houdini_manual.py:56 | an export file name is one path component that ends in ".abc" and can be written on one line |
| HoudiniManual.ExportFileNameInjective | scripts/python/houdini_manual.py:56 | an export file name determines the SOP name and the identifier |
| HoudiniManual.ExportKeysDistinct | scripts/python/houdini_manual.py:56-57 | distinct identifiers give distinct export files |
| HoudiniManual.ExportCycle | scripts/python/houdini_manual.py:23-73 | the specification of `houdini_export`: guard, selection check, then the tail; `HoudiniManual.ExportSucceeds`, `ExportFrame` and `ExportPurgedByNext` state its properties |
| HoudiniManual.ExportTail | scripts/python/houdini_manual.py:37-71 | the specification of the export past the selection check: the purge with its two failures, the removal of the list and the staging loop |
| HoudiniManual.ExportBase | scripts/python/houdini_manual.py:37-45 | after the guard, the purge and the removal of the list, the staging directory exists, the list and the export files are absent, and every export file name is distinct, fits `NAME_MAX` and lies in the staging directory |
| HoudiniManual.ExportKeysStaged | scripts/python/houdini_manual.py:56-57 | every export location sits directly in the staging directory and is not the list |
| HoudiniManual.HoudiniExport | scripts/python/houdini_manual.py:23-73 | the export's exit and new state are those of the cycle: guard, selection check, purge, removal of the list, then for each SOP in order the host's write and one appended line |
| HoudiniManual.PurgeAndStage | scripts/python/houdini_manual.py:37-71 | past the guard and the selection check, the exit and the new state are those of the export tail |
| HoudiniManual.ExportEach | scripts/python/houdini_manual.py:52-71 | the per-SOP loop stages every selected SOP in order |
| HoudiniManual.ExportOne | scripts/python/houdini_manual.py:53-71 | one iteration stages the next SOP: one host write and one appended line |
| HoudiniManual.ExportRefusedByFile | scripts/python/houdini_manual.py:26-29 | a plain file at the temp path ends the export with an Error and no write |
| HoudiniManual.ExportNothingSelected | scripts/python/houdini_manual.py:30-35 | an empty selection ends the export with ImportantMessage; there is no purge, removal or append, and the only change is the directory the guard creates |
| HoudiniManual.ExportListIsDirectory | scripts/python/houdini_manual.py:39-42 | a blend import list that is a directory ends the export with an Error before the list is removed and before anything is staged |
| HoudiniManual.ExportSucceeds | scripts/python/houdini_manual.py:45-71 | after a successful export the list holds exactly one line per selected SOP, in selection order. Each line is the resolved path of a ".abc" file directly inside the staging directory, under the temp root, and that file holds the SOP's export |
| HoudiniManual.StagedAll | scripts/python/houdini_manual.py:52-71 | after staging every SOP the tree is well formed, the list holds one line per SOP in order and reads back as those lines, and each file holds its SOP's export |
| HoudiniManual.ExportEntries | scripts/python/houdini_manual.py:56-71 | each recorded line can be written on one line, parses back to its file's location under the temp root, and ends in ".abc" |
| HoudiniManual.ExportFrame | scripts/python/houdini_manual.py:45-71 | apart from the list, the export keeps everything the purge left and adds only the staged files |
| HoudiniManual.ExportPurgedByNext | scripts/python/houdini_manual.py:37-42 | the next export's purge removes exactly the files this export staged and nothing else |
| HoudiniManual.HoudiniImport | scripts/python/houdini_manual.py:76-189 | the import's exit, the files loaded and the Stash choice follow the rules: absent list, no selection, directory list, an `exists()` that raises, then the existing stripped lines in order |
| HoudiniManual.ImportOutcome | scripts/python/houdini_manual.py:76-189 | the specification of `houdini_import`: the three refusals, the raising `exists()`, then the existing lines and the `missing` flag; `HoudiniManual.ImportCases` and `ImportReads` state its properties |
| HoudiniManual.ImportSeverity | scripts/python/houdini_manual.py:78-189 | the severity each import exit shows: ImportantMessage for an absent list, Error for no SOP, a directory list or an empty list, Warning when files were missing, Message when done; `HoudiniManual.ImportCases` states which exits give each severity |
| HoudiniManual.ListedOutcome | scripts/python/houdini_manual.py:108-189 | the specification of the import once the list was read: the empty-list error, the Stash case for one file, or one Alembic import per path, then the status by `missing` |
| HoudiniManual.ImportCases | scripts/python/houdini_manual.py:78-99 | exit rules: an absent list means nothing to import; no selection and a directory list are errors; files are loaded exactly in the two "done" exits; a Stash SOP receives a single file. Apart from a raising `exists()`, errors show severity Error, missing files a Warning, a clean import a Message |
| HoudiniManual.ListedOutcomeCases | scripts/python/houdini_manual.py:108-122 | once the list is read the exit is the empty-list error or one of the two "done" exits; files are loaded exactly in the "done" exits; the Stash case loads one file into a Stash SOP |
| HoudiniManual.ImportReads | scripts/python/houdini_manual.py:101-111 | once the list is read, `exists()` raising for some line is exactly the exception exit, which loads nothing. Otherwise: none existing is the empty-list error; some missing is the Warning exit; with none missing every listed path is loaded; and whatever is loaded is exactly the existing listed paths, in order |
| HoudiniManual.LoadListed | scripts/python/houdini_manual.py:108-189 | after reading: the empty-list error, the Stash case for a single file, or one Alembic import per path, then the status by `missing` |
| BlenderManual.RemoveFirstLaw | scripts/python/blender_manual.py:87 | `list.remove(x)` of a present element shortens the list by one and removes exactly one occurrence of x (as multisets) |
| BlenderManual.RemoveFirst | scripts/python/blender_manual.py:87 | the specification of `list.remove(x)` on a list that holds x; `BlenderManual.RemoveFirstLaw` and `RemoveFirstAt` state its properties |
| BlenderManual.RemoveFirstAt | scripts/python/blender_manual.py:87 | `list.remove(x)` drops exactly the first occurrence |
| BlenderManual.MeshesAreMeshes | scripts/python/blender_manual.py:83-87 | the filter keeps exactly the selected objects of type MESH |
| BlenderManual.MeshesAppend | scripts/python/blender_manual.py:83-87 | the filter keeps the original order |
| BlenderManual.MeshesEmpty | scripts/python/blender_manual.py:89-91 | nothing is left exactly when no selected object is a mesh |
| BlenderManual.Meshes | scripts/python/blender_manual.py:85-87 | the specification of the filter: the selected objects of type MESH, in order; `BlenderManual.MeshesAreMeshes` and `MeshesAppend` state its properties |
| BlenderManual.KeepMeshesStep | scripts/python/blender_manual.py:85-87 | each visited object is still in the working list, and one iteration removes it exactly when it is not a mesh |
| BlenderManual.KeepMeshes | scripts/python/blender_manual.py:83-87 | the loop that removes non-meshes from the selection leaves exactly the meshes, in order |
| BlenderManual.FileExists | scripts/python/blender_manual.py:138-143 | 1 exactly when absent, 2 exactly when a directory, 0 exactly when a plain file |
| BlenderManual.ExportFileName | scripts/python/blender_manual.py:103 | the name `hou_<hex>.abc` of the staged file; `BlenderManual.ExportFileStageable` and `ExportEntry` state its properties |
| BlenderManual.ExportFileStageable | scripts/python/blender_manual.py:103 | `hou_<hex>.abc` is one path component, directly inside the staging directory, and can be written on one line |
| BlenderManual.ExportCycle | scripts/python/blender_manual.py:77-117 | the specification of the "Yank" operator: guard, mesh filter, then the tail; `BlenderManual.ExportSucceeds` and `ExportPurgedByNext` state its properties |
| BlenderManual.ExportStatus | scripts/python/blender_manual.py:79-117 | the returned set and report level of each export exit: CANCELLED with INFO for a file at the temp path, FINISHED with INFO for no mesh and when done, CANCELLED with ERROR for a directory list; `BlenderManual.ExportRefusedByFile`, `ExportNoMeshes` and `ExportListIsDirectory` state it for the early exits |
| BlenderManual.ExportTail | scripts/python/blender_manual.py:93-114 | the specification of the export past the mesh filter: the purge with its two failures, the removal of the list, the host's export and one appended line |
| BlenderManual.ExportBase | scripts/python/blender_manual.py:93-100 | after the guard, the purge and the removal of the list, the tree is well formed, the staging directory exists, and the list and the export file are absent |
| BlenderManual.BlenderExport | scripts/python/blender_manual.py:77-117 | the operator's exit and new state are those of the cycle: guard, mesh filter, purge, removal of the list, the host's export and one appended line |
| BlenderManual.PurgeAndStage | scripts/python/blender_manual.py:93-114 | past the mesh filter, the exit and the new state are those of the export tail |
| BlenderManual.StageExport | scripts/python/blender_manual.py:106-114 | the host's export and the one appended line are one staging step |
| BlenderManual.ExportRefusedByFile | scripts/python/blender_manual.py:79-81 | a plain file at the temp path cancels the export with an INFO report and no write |
| BlenderManual.ExportNoMeshes | scripts/python/blender_manual.py:89-91 | with no mesh selected the operator finishes with an INFO report and no purge, removal or write |
| BlenderManual.ExportListIsDirectory | scripts/python/blender_manual.py:94-96 | a hou import list that is a directory cancels the export with an ERROR report before the list is removed |
| BlenderManual.ExportEntry | scripts/python/blender_manual.py:103 | the recorded path is "/tmp/houdini_blender/hou_<hex>.abc"; it can be written on one line and parses back to the file's location under the temp root |
| BlenderManual.ExportSucceeds | scripts/python/blender_manual.py:100-114 | after a successful export the list holds exactly one line, read back as the recorded path of `hou_<hex>.abc`, and that file holds the export |
| BlenderManual.StagedOnce | scripts/python/blender_manual.py:106-114 | after the one staging step the tree is well formed, the list holds the one recorded line and reads back as it, and the file holds the export |
| BlenderManual.ExportPurgedByNext | scripts/python/blender_manual.py:93-96 | the next export's purge removes exactly the file this export staged |
| BlenderManual.BlenderImport | scripts/python/blender_manual.py:32-69 | the operator's exit, the paths imported and the new state are those of the cycle: guard, three-way classification, reading loop (ending with the exception when `exists()` raises), import loop |
| BlenderManual.ImportCycle | scripts/python/blender_manual.py:32-69 | the specification of the "Paste" operator: the guard, the three-way classification, the raising `exists()`, then the existing lines; `BlenderManual.ImportCases`, `ImportRefusals` and `ImportReads` state its properties |
| BlenderManual.ImportStatus | scripts/python/blender_manual.py:34-69 | the returned set and report level of each import exit: CANCELLED with INFO for a file at the temp path or an absent list, with ERROR for a directory list, with WARNING for an empty list; FINISHED with INFO when files were missing and with no report otherwise; `BlenderManual.ImportCases` and `ListedResultCancels` state that it cancels exactly when nothing is imported |
| BlenderManual.ListedResult | scripts/python/blender_manual.py:58-69 | the specification of the operator once the list was read: cancelled for no existing path, otherwise finished with the INFO report when some were missing |
| BlenderManual.ImportCases | scripts/python/blender_manual.py:32-69 | the guard is the only write; an `exists()` that raises imports nothing; otherwise the operator is cancelled exactly when nothing is imported |
| BlenderManual.ListedResultCancels | scripts/python/blender_manual.py:58-69 | once the list is read nothing is written, and the operator cancels exactly when nothing is imported |
| BlenderManual.ImportRefusals | scripts/python/blender_manual.py:34-45 | the operator cancels before reading anything exactly when the guard fails, the list is absent or the list is a directory |
| BlenderManual.ImportReads | scripts/python/blender_manual.py:51-67 | once the list is read, `exists()` raising for some line is exactly the exception exit, which imports nothing. Otherwise the importer receives exactly the existing stripped paths, in file order, all of them when none is missing; no existing path cancels the operator, and some missing gives the INFO report |
| Handoff.HoudiniToBlender | scripts/python/houdini_manual.py:70-71 | after a successful Houdini export, Blender's import loads every exported file in selection order, with nothing missing |
| Handoff.ListedImport | scripts/python/blender_manual.py:51-69 | a list whose every line names an existing file, with no `exists()` raising, is imported in full and in order |
| Handoff.ExportedFilesExist | scripts/python/blender_manual.py:53 | every line a Houdini export records names an existing file, and `exists()` does not raise for it |
| Handoff.BlenderToHoudini | scripts/python/blender_manual.py:113-114 | after a successful Blender export, Houdini's import loads the one exported file, into the selected Stash when that SOP is a Stash |

## Left out

- The `hou` and `bpy` scene APIs are not modelled:
  - node creation, parameters, `pressButton`, `destroy`, layout, and the
    wiring of the Stash network;
  - `bpy.ops.wm.alembic_export` and `alembic_import`.
  An export is the host writing an opaque file at the chosen path. An import
  is the list of paths handed to the importer, plus whether the single file
  goes into a selected Stash SOP.
- Alembic contents are opaque strings.
- `uuid1().hex` is a parameter. Its value is 32 lower-case hexadecimal
  digits, the values are distinct within one export, and they name files
  that do not exist yet. Clocks and MAC addresses are not modelled.
- `tempfile.gettempdir()` is the fixed existing directory `/tmp`. The
  exports and the Blender import assume it exists, so `mkdir` of the staging
  directory cannot fail for a missing parent.
- Symbolic links are not modelled, so `resolve()` leaves the already
  absolute staging paths unchanged.
- Permissions, other processes, decoding errors and the `hou.InvalidInput`
  of ROP SOPs are left out.
- Status message texts are left out. Only the outcome kind is kept: Houdini
  severities, and Blender's returned set and report level.
- `blender_import()` in `blender_manual.py` does nothing and is not modelled.
- `applink.py`, `blender_server.py` and `__init__.py` are not part of this
  model. They hold the XML-RPC link, its threaded server, add-on
  registration and the panel.
- Houdini node names are assumed to hold no "/", no whitespace and no NUL.
  Blender's `selected_objects` is modelled as a fresh list, so the filter
  only decides "nothing to export", and the host exports the real selection.
- Unlinking a directory is modelled as raising, as on Linux (EISDIR).
- The process's working directory is an existing directory throughout
  (`Files.FileSystem.Valid`). Linux lets `rmdir` remove the working
  directory of a process and leaves it dangling; that state is not modelled.
- Common.RemoveFile: requires the path not to be the working directory. The
  plug-ins only call it on a list path that is not a directory at that point
  (`Common.PurgedListIsNoDirectory`), so the case never arises there.
- HoudiniManual.HoudiniExport: requires every export file name
  `<sop name>_<hex>.abc` to fit within `NAME_MAX` bytes. A longer name would
  make the host's Alembic writer fail inside `pressButton`, which is not
  modelled.
- `exists()` follows Python 3.8 to 3.13: a NUL reads as "does not exist",
  and ENAMETOOLONG raises. Later versions, where `exists()` returns False
  for every OS error, are not modelled.
- HoudiniManual.ImportSeverity and BlenderManual.ImportStatus are not
  defined for the `ExistsRaised` exit. That exception escapes to the host
  and shows no status of the plug-in's own.
- BlenderManual.RemoveFirst: requires the element to be present.
  `list.remove` raises `ValueError` otherwise, but the mesh filter never
  reaches that case: each object it removes is still in the working list
  (`BlenderManual.KeepMeshesStep`).
