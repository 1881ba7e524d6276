/** What the two plug-ins promise each other through the list files: a
    successful export on one side is imported in full, in order and with
    nothing missing, by the other side, as long as nothing else touched the
    staging directory in between. */
module Handoff {
  import opened Text
  import opened Files
  import opened ListStore
  import opened Common
  import H = HoudiniManual
  import B = BlenderManual

  /** Houdini's yank followed by Blender's paste imports every exported SOP's
      file, in selection order. */
  lemma HoudiniToBlender(m: map<Key, Node>, cwd: Key, sops: seq<H.Sop>, hexes: seq<string>, blobs: seq<string>)
    requires H.ExportReady(m, sops, hexes, blobs)
    requires H.ExportCycle(m, sops, hexes, blobs).exit == H.DoneExporting
    ensures var r := H.ExportCycle(m, sops, hexes, blobs).entries;
      B.ImportCycle(r, cwd) == B.ImportResult(B.DoneImporting, EntriesFor(H.ExportKeys(sops, hexes)), r)
  {
    var r := H.ExportCycle(m, sops, hexes, blobs).entries;
    var es := EntriesFor(H.ExportKeys(sops, hexes));
    H.ExportSucceeds(m, sops, hexes, blobs);
    ExportedFilesExist(r, cwd, sops, hexes);
    ListedImport(r, cwd, es);
  }

  /** Blender's import of a list whose every line names an existing file
      loads them all, in order. */
  lemma ListedImport(r: map<Key, Node>, cwd: Key, es: seq<string>)
    requires WellFormed(r) && BlendImportFile in r && r[BlendImportFile].File?
    requires ReadEntries(r[BlendImportFile].contents) == es && es != []
    requires forall i :: 0 <= i < |es| ==> ExistsAt(r, cwd, es[i]) && !ExistsRaises(r, cwd, es[i])
    ensures B.ImportCycle(r, cwd) == B.ImportResult(B.DoneImporting, es, r)
  {
    assert Up(BlendImportFile) == TempPath;
    assert !AnyRaises(r, cwd, es);
    ExistingPathsLaw(r, cwd, es);
  }

  /** Every line Houdini recorded names a file that exists, and looking it
      up does not raise. */
  lemma ExportedFilesExist(r: map<Key, Node>, cwd: Key, sops: seq<H.Sop>, hexes: seq<string>)
    requires WellFormed(r) && |hexes| == |sops|
    requires forall i :: 0 <= i < |sops| ==> H.NodeName(sops[i].name) && IsHex32(hexes[i])
    requires forall i :: 0 <= i < |sops| ==> NameFits(H.ExportFileName(sops[i].name, hexes[i]))
    requires forall i :: 0 <= i < |sops| ==> H.ExportKeys(sops, hexes)[i] in r && r[H.ExportKeys(sops, hexes)[i]].File?
    ensures forall i :: 0 <= i < |sops| ==>
      ExistsAt(r, cwd, EntriesFor(H.ExportKeys(sops, hexes))[i]) && !ExistsRaises(r, cwd, EntriesFor(H.ExportKeys(sops, hexes))[i])
  {
    var es := EntriesFor(H.ExportKeys(sops, hexes));
    forall i | 0 <= i < |es| ensures ExistsAt(r, cwd, es[i]) && !ExistsRaises(r, cwd, es[i]) {
      H.ExportFileNameStageable(sops[i].name, hexes[i]);
      StagedEntryExists(r, cwd, H.ExportFileName(sops[i].name, hexes[i]));
    }
  }

  /** Blender's yank followed by Houdini's paste onto a selected SOP loads
      the one exported file, as the selected Stash's contents when that SOP
      is a Stash. */
  lemma BlenderToHoudini(m: map<Key, Node>, cwd: Key, selected: seq<B.SceneObject>, hex: string, blob: string, selection: seq<H.Sop>)
    requires B.ExportReady(m, hex)
    requires B.ExportCycle(m, selected, hex, blob).exit == B.DoneExporting
    requires selection != []
    ensures var r := B.ExportCycle(m, selected, hex, blob).entries;
      H.ImportOutcome(r, cwd, selection) ==
        H.ImportPlan(H.DoneImporting, [EntryFor(B.ExportKey(hex))], selection[0].typeName == "stash")
  {
    var r := B.ExportCycle(m, selected, hex, blob).entries;
    var es := [EntryFor(B.ExportKey(hex))];
    B.ExportSucceeds(m, selected, hex, blob);
    B.ExportFileStageable(hex);
    StagedEntryExists(r, cwd, B.ExportFileName(hex));
    assert !AnyRaises(r, cwd, es);
    ExistingPathsLaw(r, cwd, es);
  }
}
