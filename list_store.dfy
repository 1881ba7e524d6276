/** The list files both plug-ins exchange: one resolved absolute path per
    line, appended after the host has written the file it names, and read
    back as the stripped lines whose paths exist. */
module ListStore {
  import opened Text
  import opened Paths
  import opened Files

  /** `str(filepath)` for a resolved staged file. */
  function EntryFor(k: Key): string {
    Format(PurePath("/", k))
  }

  /** The entries recorded for `keys`, in order. */
  function EntriesFor(keys: seq<Key>): (r: seq<string>)
    ensures |r| == |keys|
  {
    seq(|keys|, i requires 0 <= i < |keys| => EntryFor(keys[i]))
  }

  /** No two keys coincide. */
  predicate Distinct(keys: seq<Key>) {
    forall i, j :: 0 <= i < j < |keys| ==> keys[i] != keys[j]
  }

  // ---------------------------------------------------------------------
  // Appending

  /** The filesystem after the first `n` items were staged: for each, the host
      writes its Alembic data, then `f'{filepath}\n'` is appended to `list`. */
  function StageWrites(base: map<Key, Node>, list: Key, keys: seq<Key>, blobs: seq<string>, n: nat): map<Key, Node>
    requires n <= |keys| && |keys| == |blobs|
  {
    if n == 0 then base
    else
      var prev := StageWrites(base, list, keys, blobs, n - 1);
      Appended(prev[keys[n - 1] := File(blobs[n - 1])], list, EntryFor(keys[n - 1]) + "\n")
  }

  /** Staging into a freshly removed list leaves it holding exactly one line per
      staged item, in order. */
  lemma {:induction false} StageWritesList(base: map<Key, Node>, list: Key, keys: seq<Key>, blobs: seq<string>, n: nat)
    requires n <= |keys| && |keys| == |blobs|
    requires list !in base && list !in keys
    ensures Current(StageWrites(base, list, keys, blobs, n), list) == Render(EntriesFor(keys[..n]))
    ensures n > 0 ==>
      list in StageWrites(base, list, keys, blobs, n) &&
      StageWrites(base, list, keys, blobs, n)[list] == File(Render(EntriesFor(keys[..n])))
  {
    if n == 0 {
      assert EntriesFor(keys[..0]) == [];
    } else {
      StageWritesList(base, list, keys, blobs, n - 1);
      var prev := StageWrites(base, list, keys, blobs, n - 1);
      var k := keys[n - 1];
      assert k != list by { assert k in keys; }
      var mid := prev[k := File(blobs[n - 1])];
      var before := Render(EntriesFor(keys[..n - 1]));
      assert Current(mid, list) == before;
      var line := EntryFor(k) + "\n";
      assert StageWrites(base, list, keys, blobs, n) == mid[list := File(before + line)];
      EntriesForSnoc(keys, n);
      RenderSnoc(EntriesFor(keys[..n - 1]), EntryFor(k));
      assert before + EntryFor(k) + "\n" == before + line;
    }
  }

  lemma EntriesForSnoc(keys: seq<Key>, n: nat)
    requires 0 < n <= |keys|
    ensures EntriesFor(keys[..n]) == EntriesFor(keys[..n - 1]) + [EntryFor(keys[n - 1])]
  {
  }

  /** Every staged file holds its own data. */
  lemma {:induction false} StageWritesFiles(base: map<Key, Node>, list: Key, keys: seq<Key>, blobs: seq<string>, n: nat)
    requires n <= |keys| && |keys| == |blobs|
    requires list !in keys && Distinct(keys)
    ensures forall i :: 0 <= i < n ==>
      keys[i] in StageWrites(base, list, keys, blobs, n) && StageWrites(base, list, keys, blobs, n)[keys[i]] == File(blobs[i])
  {
    if n > 0 {
      StageWritesFiles(base, list, keys, blobs, n - 1);
      var prev := StageWrites(base, list, keys, blobs, n - 1);
      var r := StageWrites(base, list, keys, blobs, n);
      var k := keys[n - 1];
      var mid := prev[k := File(blobs[n - 1])];
      assert r == mid[list := File(Current(mid, list) + (EntryFor(k) + "\n"))];
      forall i | 0 <= i < n ensures keys[i] in r && r[keys[i]] == File(blobs[i]) {
        assert keys[i] != list by { assert keys[i] in keys; }
        if i < n - 1 {
          assert keys[i] != k;
          assert keys[i] in prev && prev[keys[i]] == File(blobs[i]);
        } else {
          assert mid[keys[i]] == File(blobs[i]);
        }
      }
    }
  }

  /** Staging adds or changes nothing but the list and the staged files. */
  lemma {:induction false} StageWritesFrame(base: map<Key, Node>, list: Key, keys: seq<Key>, blobs: seq<string>, n: nat)
    requires n <= |keys| && |keys| == |blobs|
    ensures forall k :: k in base && k != list && k !in keys[..n] ==>
      k in StageWrites(base, list, keys, blobs, n) && StageWrites(base, list, keys, blobs, n)[k] == base[k]
    ensures forall k :: k in StageWrites(base, list, keys, blobs, n) ==> k in base || k == list || k in keys[..n]
  {
    if n > 0 {
      StageWritesFrame(base, list, keys, blobs, n - 1);
      assert keys[..n] == keys[..n - 1] + [keys[n - 1]];
    }
  }

  /** Staging into an existing directory `dir` keeps the tree well formed and
      creates no directory. */
  lemma {:induction false} StageWritesWellFormed(base: map<Key, Node>, dir: Key, list: Key, keys: seq<Key>, blobs: seq<string>, n: nat)
    requires n <= |keys| && |keys| == |blobs|
    requires WellFormed(base) && dir in base && base[dir] == Dir
    requires list != [] && Up(list) == dir && !(list in base && base[list] == Dir)
    requires forall i :: 0 <= i < |keys| ==> keys[i] != [] && Up(keys[i]) == dir && !(keys[i] in base && base[keys[i]] == Dir)
    ensures WellFormed(StageWrites(base, list, keys, blobs, n))
    ensures forall k :: k in base && base[k] == Dir ==>
      k in StageWrites(base, list, keys, blobs, n) && StageWrites(base, list, keys, blobs, n)[k] == Dir
    ensures forall k :: k in StageWrites(base, list, keys, blobs, n) && StageWrites(base, list, keys, blobs, n)[k] == Dir ==>
      k in base && base[k] == Dir
  {
    StageWritesDirs(base, list, keys, blobs, n);
    if n > 0 {
      StageWritesWellFormed(base, dir, list, keys, blobs, n - 1);
      var prev := StageWrites(base, list, keys, blobs, n - 1);
      StageWritesDirs(base, list, keys, blobs, n - 1);
      var k := keys[n - 1];
      assert dir in prev && prev[dir] == Dir;
      assert !(k in prev && prev[k] == Dir) && !(list in prev && prev[list] == Dir);
      StageWriteKeepsWellFormed(prev, dir, list, k, blobs[n - 1]);
    }
  }

  /** One staging step inside the directory `dir` keeps the tree well formed. */
  lemma StageWriteKeepsWellFormed(prev: map<Key, Node>, dir: Key, list: Key, k: Key, blob: string)
    requires WellFormed(prev) && dir in prev && prev[dir] == Dir
    requires list != [] && Up(list) == dir && !(list in prev && prev[list] == Dir)
    requires k != [] && Up(k) == dir && !(k in prev && prev[k] == Dir)
    ensures WellFormed(Appended(prev[k := File(blob)], list, EntryFor(k) + "\n"))
  {
    WriteKeepsWellFormed(prev, k, blob);
    var mid := prev[k := File(blob)];
    assert dir != k;
    WriteKeepsWellFormed(mid, list, Current(mid, list) + (EntryFor(k) + "\n"));
  }

  /** Staging plain files neither creates nor removes a directory. */
  lemma {:induction false} StageWritesDirs(base: map<Key, Node>, list: Key, keys: seq<Key>, blobs: seq<string>, n: nat)
    requires n <= |keys| && |keys| == |blobs|
    requires !(list in base && base[list] == Dir)
    requires forall i :: 0 <= i < |keys| ==> !(keys[i] in base && base[keys[i]] == Dir)
    ensures forall k :: k in base && base[k] == Dir ==>
      k in StageWrites(base, list, keys, blobs, n) && StageWrites(base, list, keys, blobs, n)[k] == Dir
    ensures forall k :: k in StageWrites(base, list, keys, blobs, n) && StageWrites(base, list, keys, blobs, n)[k] == Dir ==>
      k in base && base[k] == Dir
    decreases n
  {
    if n > 0 {
      StageWritesDirs(base, list, keys, blobs, n - 1);
      var prev := StageWrites(base, list, keys, blobs, n - 1);
      var k := keys[n - 1];
      var mid := prev[k := File(blobs[n - 1])];
      var r := StageWrites(base, list, keys, blobs, n);
      assert r == mid[list := File(Current(mid, list) + (EntryFor(k) + "\n"))];
      forall j | j in base && base[j] == Dir ensures j in r && r[j] == Dir {
        assert j != k && j != list;
      }
    }
  }

  /** Before the staging step for `keys[n]` the tree is still well formed,
      `dir` is still a directory, and neither that key nor the list has
      become one. */
  lemma StageStepReady(base: map<Key, Node>, dir: Key, list: Key, keys: seq<Key>, blobs: seq<string>, n: nat)
    requires n < |keys| && |keys| == |blobs|
    requires WellFormed(base) && dir in base && base[dir] == Dir
    requires list != [] && Up(list) == dir && !(list in base && base[list] == Dir)
    requires forall i :: 0 <= i < |keys| ==> keys[i] != [] && Up(keys[i]) == dir && !(keys[i] in base && base[keys[i]] == Dir)
    ensures var cur := StageWrites(base, list, keys, blobs, n);
      && WellFormed(cur) && dir in cur && cur[dir] == Dir
      && !(keys[n] in cur && cur[keys[n]] == Dir)
      && !(list in cur && cur[list] == Dir)
  {
    StageWritesWellFormed(base, dir, list, keys, blobs, n);
  }

  /** `open(list, 'a').write(f'{filepath}\n')` after the host wrote the data
      of `key`: one staging step. */
  method Stage(fs: FileSystem, list: Key, key: Key, blob: string)
    requires fs.Valid()
    requires key != [] && Up(key) in fs.entries && fs.entries[Up(key)] == Dir && !(key in fs.entries && fs.entries[key] == Dir)
    requires list != [] && Up(list) == Up(key) && !(list in fs.entries && fs.entries[list] == Dir)
    requires NameFits(key[|key| - 1]) && NameFits(list[|list| - 1])
    requires key != list
    modifies fs
    ensures fs.Valid()
    ensures fs.entries == Appended(old(fs.entries)[key := File(blob)], list, EntryFor(key) + "\n")
  {
    fs.Write(key, blob);
    fs.Append(list, EntryFor(key) + "\n");
  }

  // ---------------------------------------------------------------------
  // Reading

  /** The entries `present` accepts, in order: the filter the reading loop
      applies, stated for any test so that its laws do not depend on how a
      path is looked up. */
  function Kept(entries: seq<string>, present: string -> bool): seq<string>
    decreases |entries|
  {
    if entries == [] then []
    else
      var e := entries[|entries| - 1];
      Kept(entries[..|entries| - 1], present) + (if present(e) then [e] else [])
  }

  /** Some entry is refused by `present`. */
  predicate AnyDropped(entries: seq<string>, present: string -> bool) {
    exists i :: 0 <= i < |entries| && !present(entries[i])
  }

  /** The kept entries are exactly the entries `present` accepts. */
  lemma {:induction false} KeptMembers(entries: seq<string>, present: string -> bool)
    ensures forall e :: e in Kept(entries, present) <==> e in entries && present(e)
    decreases |entries|
  {
    if entries != [] {
      var init := entries[..|entries| - 1];
      var e := entries[|entries| - 1];
      KeptMembers(init, present);
      assert entries == init + [e];
    }
  }

  /** An entry is dropped exactly when `present` refuses one; when it
      refuses none, every entry is kept. */
  lemma {:induction false} KeptLength(entries: seq<string>, present: string -> bool)
    ensures |Kept(entries, present)| <= |entries|
    ensures AnyDropped(entries, present) <==> |Kept(entries, present)| < |entries|
    ensures !AnyDropped(entries, present) ==> Kept(entries, present) == entries
    decreases |entries|
  {
    if entries != [] {
      var init := entries[..|entries| - 1];
      var e := entries[|entries| - 1];
      KeptLength(init, present);
      assert entries == init + [e];
      if AnyDropped(init, present) {
        var i :| 0 <= i < |init| && !present(init[i]);
        assert entries[i] == init[i];
      }
      if !AnyDropped(entries, present) {
        forall i | 0 <= i < |init| ensures present(init[i]) {
          assert init[i] == entries[i];
        }
      }
      if !present(e) {
        assert entries[|entries| - 1] == e;
      }
    }
  }

  /** The filter of a concatenation is the concatenation of the filters. */
  lemma {:induction false} KeptAppend(a: seq<string>, b: seq<string>, present: string -> bool)
    ensures Kept(a + b, present) == Kept(a, present) + Kept(b, present)
    decreases |b|
  {
    if b == [] {
      assert a + b == a;
    } else {
      var init := b[..|b| - 1];
      assert (a + b)[..|a + b| - 1] == a + init && (a + b)[|a + b| - 1] == b[|b| - 1];
      KeptAppend(a, init, present);
    }
  }

  /** `Path(e).exists()` for every stripped line, as a test on strings. */
  function Present(m: map<Key, Node>, cwd: Key): string -> bool {
    e => ExistsAt(m, cwd, e)
  }

  /** The stripped lines whose path exists, in file order. */
  function ExistingPaths(m: map<Key, Node>, cwd: Key, entries: seq<string>): seq<string> {
    Kept(entries, Present(m, cwd))
  }

  /** Some stripped line names a path that does not exist. */
  predicate AnyMissing(m: map<Key, Node>, cwd: Key, entries: seq<string>) {
    AnyDropped(entries, Present(m, cwd))
  }

  /** Some stripped line makes `exists()` raise. */
  predicate AnyRaises(m: map<Key, Node>, cwd: Key, entries: seq<string>) {
    exists i :: 0 <= i < |entries| && ExistsRaises(m, cwd, entries[i])
  }

  /** What the reading loop keeps: exactly the entries whose path exists,
      and it reports a missing path exactly when it drops an entry; when
      nothing is missing it keeps every entry. */
  lemma ExistingPathsLaw(m: map<Key, Node>, cwd: Key, entries: seq<string>)
    ensures forall e :: e in ExistingPaths(m, cwd, entries) <==> e in entries && ExistsAt(m, cwd, e)
    ensures |ExistingPaths(m, cwd, entries)| <= |entries|
    ensures AnyMissing(m, cwd, entries) <==> |ExistingPaths(m, cwd, entries)| < |entries|
    ensures !AnyMissing(m, cwd, entries) ==> ExistingPaths(m, cwd, entries) == entries
  {
    KeptMembers(entries, Present(m, cwd));
    KeptLength(entries, Present(m, cwd));
  }

  /** Nothing is kept exactly when no listed path exists. */
  lemma ExistingPathsEmpty(m: map<Key, Node>, cwd: Key, entries: seq<string>)
    ensures ExistingPaths(m, cwd, entries) == [] <==> forall e :: e in entries ==> !ExistsAt(m, cwd, e)
  {
    ExistingPathsLaw(m, cwd, entries);
    var paths := ExistingPaths(m, cwd, entries);
    if paths != [] {
      assert paths[0] in paths;
    }
  }

  /** Order is kept: the lines of a concatenation are filtered piece by
      piece. */
  lemma ExistingPathsAppend(m: map<Key, Node>, cwd: Key, a: seq<string>, b: seq<string>)
    ensures ExistingPaths(m, cwd, a + b) == ExistingPaths(m, cwd, a) + ExistingPaths(m, cwd, b)
  {
    KeptAppend(a, b, Present(m, cwd));
  }

  /** One more line read: it is kept when its path exists. */
  lemma PathsStep(m: map<Key, Node>, cwd: Key, entries: seq<string>, i: nat)
    requires i < |entries|
    ensures ExistingPaths(m, cwd, entries[..i + 1]) ==
      ExistingPaths(m, cwd, entries[..i]) + (if ExistsAt(m, cwd, entries[i]) then [entries[i]] else [])
  {
    var a := entries[..i + 1];
    assert a[..i] == entries[..i];
    assert a[i] == entries[i];
  }

  /** One more line read: it sets `missing` when its path does not exist. */
  lemma MissingStep(m: map<Key, Node>, cwd: Key, entries: seq<string>, i: nat)
    requires i < |entries|
    ensures AnyMissing(m, cwd, entries[..i + 1]) <==>
      AnyMissing(m, cwd, entries[..i]) || !ExistsAt(m, cwd, entries[i])
  {
    DroppedStep(entries, Present(m, cwd), i);
  }

  /** `AnyDropped` grows one line at a time. */
  lemma DroppedStep(entries: seq<string>, present: string -> bool, i: nat)
    requires i < |entries|
    ensures AnyDropped(entries[..i + 1], present) <==>
      AnyDropped(entries[..i], present) || !present(entries[i])
  {
    var a := entries[..i + 1];
    assert a[i] == entries[i];
    if AnyDropped(entries[..i], present) {
      var j :| 0 <= j < i && !present(entries[..i][j]);
      assert a[j] == entries[..i][j];
    }
    if AnyDropped(a, present) {
      var j :| 0 <= j < i + 1 && !present(a[j]);
      if j < i {
        assert entries[..i][j] == a[j];
      }
    }
  }

  /** One more line read without `exists()` raising. */
  lemma RaisesStep(m: map<Key, Node>, cwd: Key, entries: seq<string>, i: nat)
    requires i < |entries|
    requires !AnyRaises(m, cwd, entries[..i]) && !ExistsRaises(m, cwd, entries[i])
    ensures !AnyRaises(m, cwd, entries[..i + 1])
  {
    var a := entries[..i + 1];
    forall j | 0 <= j < i + 1 ensures !ExistsRaises(m, cwd, a[j]) {
      if j < i {
        assert a[j] == entries[..i][j];
      }
    }
  }

  /** A line that raises makes the whole list raise. */
  lemma RaisesAt(m: map<Key, Node>, cwd: Key, entries: seq<string>, i: nat)
    requires i < |entries| && ExistsRaises(m, cwd, entries[i])
    ensures AnyRaises(m, cwd, entries)
  {
  }

  /** `file_paths` and `missing` built by the loop over `readlines()`; the
      loop stops with `raised` when `exists()` raises for a line, and the
      exception escapes. */
  method PartitionListed(fs: FileSystem, list: Key) returns (paths: seq<string>, missing: bool, raised: bool)
    requires list in fs.entries && fs.entries[list].File?
    ensures raised == AnyRaises(fs.entries, fs.cwd, ReadEntries(fs.entries[list].contents))
    ensures !raised ==> paths == ExistingPaths(fs.entries, fs.cwd, ReadEntries(fs.entries[list].contents))
    ensures !raised ==> missing == AnyMissing(fs.entries, fs.cwd, ReadEntries(fs.entries[list].contents))
  {
    ghost var text := fs.entries[list].contents;
    ghost var entries := ReadEntries(text);
    var lines := ReadLines(Translate(fs.entries[list].contents));
    paths := [];
    missing := false;
    raised := false;
    var i := 0;
    while i < |lines|
      invariant 0 <= i <= |lines| && |entries| == |lines|
      invariant paths == ExistingPaths(fs.entries, fs.cwd, entries[..i])
      invariant missing == AnyMissing(fs.entries, fs.cwd, entries[..i])
      invariant !AnyRaises(fs.entries, fs.cwd, entries[..i])
    {
      ReadEntriesAt(text, i);
      PathsStep(fs.entries, fs.cwd, entries, i);
      MissingStep(fs.entries, fs.cwd, entries, i);
      var e := Strip(lines[i]);
      if ExistsRaises(fs.entries, fs.cwd, e) {
        RaisesAt(fs.entries, fs.cwd, entries, i);
        raised := true;
        return;
      }
      RaisesStep(fs.entries, fs.cwd, entries, i);
      if !ExistsAt(fs.entries, fs.cwd, e) {
        missing := true;
      } else {
        paths := paths + [e];
      }
      i := i + 1;
    }
    assert entries[..|lines|] == entries;
  }

  /** The loop handing every existing path to the host's Alembic importer,
      in order: the returned trace lists the calls made. */
  method ImportEach(paths: seq<string>) returns (calls: seq<string>)
    ensures calls == paths
  {
    calls := [];
    var i := 0;
    while i < |paths|
      invariant 0 <= i <= |paths| && calls == paths[..i]
    {
      calls := calls + [paths[i]];
      i := i + 1;
      assert paths[..i] == paths[..i - 1] + [paths[i - 1]];
    }
    assert paths[..|paths|] == paths;
  }

  // ---------------------------------------------------------------------
  // The hand-off

  /** A recorded entry whose components fit, whose text is shorter than
      `PATH_MAX` and holds no NUL names a path that exists exactly when its
      file does, and `exists()` does not raise for it. */
  lemma EntryForExists(m: map<Key, Node>, cwd: Key, k: Key)
    requires WellFormed(m) && k != [] && ".." !in k
    requires forall i :: 0 <= i < |k| ==> IsPart(k[i]) && NameFits(k[i])
    requires PathFits(EntryFor(k)) && !HasNul(PurePath("/", k))
    ensures ExistsAt(m, cwd, EntryFor(k)) <==> k in m
    ensures !ExistsRaises(m, cwd, EntryFor(k))
  {
    ParseFormat(k);
    WalkPlain(m, [], k);
    assert [] + k == k;
  }
}
