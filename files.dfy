/** The filesystem the plug-ins touch: a tree of plain files and directories
    keyed by canonical absolute location, the operating system's lookup of a
    path string in it, and the handful of mutating calls `pathlib` makes
    (`mkdir`, `unlink`, `rmdir`, opening for append or write). Symbolic links,
    permissions and other processes are not modelled. */
module Files {
  import opened Paths

  /** A canonical absolute location: the components below "/". */
  type Key = seq<string>

  /** A filesystem entry. Alembic caches and list files are both plain files;
      their bytes are kept as text. */
  datatype Node = File(contents: string) | Dir

  /** The directory holding `k`; the root is its own parent, as ".." at "/"
      stays at "/". */
  function Up(k: Key): Key {
    if k == [] then [] else k[..|k| - 1]
  }

  /** `NAME_MAX`: the longest file name, in bytes, a Linux filesystem holds. */
  const NameMax: nat := 255
  /** `PATH_MAX`: a path string passed to the kernel must be shorter. */
  const PathMax: nat := 4096

  /** Bytes of `c` in UTF-8, the file-system encoding. */
  function CharWidth(c: char): nat {
    if c as int < 0x80 then 1
    else if c as int < 0x800 then 2
    else if c as int < 0x1_0000 then 3
    else 4
  }

  /** Bytes of `s` in UTF-8. */
  function Utf8Length(s: string): nat
    decreases |s|
  {
    if s == [] then 0 else CharWidth(s[0]) + Utf8Length(s[1..])
  }

  lemma {:induction false} Utf8LengthAppend(a: string, b: string)
    ensures Utf8Length(a + b) == Utf8Length(a) + Utf8Length(b)
    decreases |a|
  {
    if a == [] {
      assert a + b == b;
    } else {
      assert (a + b)[0] == a[0] && (a + b)[1..] == a[1..] + b;
      Utf8LengthAppend(a[1..], b);
    }
  }

  /** Every character takes one to four bytes. */
  lemma {:induction false} Utf8LengthBound(s: string)
    ensures |s| <= Utf8Length(s) <= 4 * |s|
    decreases |s|
  {
    if s != [] {
      Utf8LengthBound(s[1..]);
    }
  }

  /** A name the kernel accepts as one component. A name of at most 63
      characters always fits, since no character takes more than four
      bytes (`Utf8LengthBound`). */
  predicate NameFits(c: string) {
    4 * |c| <= NameMax || Utf8Length(c) <= NameMax
  }

  /** A path string the kernel accepts: shorter than `PATH_MAX` bytes. */
  predicate PathFits(s: string) {
    4 * |s| < PathMax || Utf8Length(s) < PathMax
  }

  /** The shortcuts are exact: both tests are on the UTF-8 length. */
  lemma FitsIff(s: string)
    ensures NameFits(s) <==> Utf8Length(s) <= NameMax
    ensures PathFits(s) <==> Utf8Length(s) < PathMax
  {
    Utf8LengthBound(s);
  }

  /** The entries form a tree: the root is a directory and every other entry
      sits in a directory. */
  ghost predicate WellFormed(m: map<Key, Node>) {
    && [] in m && m[[]] == Dir
    && forall k :: k in m && k != [] ==> Up(k) in m && m[Up(k)] == Dir
  }

  /** The last component of `k`, if any, fits `NAME_MAX`. */
  predicate KeyFits(k: Key) {
    k == [] || NameFits(k[|k| - 1])
  }

  /** No entry's name is longer than `NAME_MAX`: the kernel creates none. */
  ghost predicate NamesFit(m: map<Key, Node>) {
    forall k {:trigger KeyFits(k)} :: k in m ==> KeyFits(k)
  }

  /** No entry lives directly in `k`. */
  predicate IsEmptyDir(m: map<Key, Node>, k: Key) {
    forall j :: j in m && j != [] ==> Up(j) != k
  }

  /** Entries of `m` that are still in `n` are unchanged there, and every entry
      `n` lost was a plain file. */
  ghost predicate FilesRemoved(m: map<Key, Node>, n: map<Key, Node>) {
    && n.Keys <= m.Keys
    && (forall k :: k in n ==> n[k] == m[k])
    && (forall k :: k in m && k !in n ==> m[k].File?)
  }

  /** Outcome of the kernel's lookup of a path: the location it names, or the
      error: a missing intermediate directory (ENOENT), an intermediate that
      is a plain file (ENOTDIR), or a name or path too long (ENAMETOOLONG). */
  datatype Lookup = Found(key: Key) | NoEntry | NotDir | TooLong

  /** Walks `parts` from the directory `cur`: ".." goes up, any other
      component is looked up in the directory reached so far, which refuses
      a name longer than `NAME_MAX`, and every component but the last must be
      an existing directory. */
  function Walk(m: map<Key, Node>, cur: Key, parts: seq<string>): Lookup
    decreases |parts|
  {
    if parts == [] then Found(cur)
    else if parts[0] == ".." then Walk(m, Up(cur), parts[1..])
    else if !NameFits(parts[0]) then TooLong
    else
      var next := cur + [parts[0]];
      if |parts| == 1 then Found(next)
      else if next !in m then NoEntry
      else if m[next].File? then NotDir
      else Walk(m, next, parts[1..])
  }

  /** Where the OS looks for `p`, given as the string `str(p)`: a string of
      `PATH_MAX` bytes or more is refused outright; relative paths start at
      the working directory, both anchors "/" and "//" at the root. */
  function Resolve(m: map<Key, Node>, cwd: Key, p: PurePath): Lookup {
    if !PathFits(Format(p)) then TooLong
    else Walk(m, if p.root == "" then cwd else [], p.parts)
  }

  /** A path string holding a NUL is refused with `ValueError` ("embedded
      null byte") when `os.stat` or `os.unlink` converts its argument,
      before the kernel sees it. */
  predicate HasNul(p: PurePath) {
    '\0' in Format(p)
  }

  /** `Path(s).exists()`: the lookup succeeds and finds an entry. A NUL, or
      a lookup that ends in ENOENT or ENOTDIR, reads as "does not exist". */
  predicate ExistsAt(m: map<Key, Node>, cwd: Key, s: string) {
    var p := Parse(s);
    var loc := Resolve(m, cwd, p);
    !HasNul(p) && loc.Found? && loc.key in m
  }

  /** `Path(s).exists()` raises: ENAMETOOLONG is not among the errors that
      `pathlib` turns into "does not exist" (Python 3.8 to 3.13). */
  predicate ExistsRaises(m: map<Key, Node>, cwd: Key, s: string) {
    var p := Parse(s);
    !HasNul(p) && Resolve(m, cwd, p).TooLong?
  }

  /** Text already in the plain file at `k`, "" when there is none. */
  function Current(m: map<Key, Node>, k: Key): string {
    if k in m && m[k].File? then m[k].contents else ""
  }

  /** `open(k, 'a').write(text)`: creates the file when missing. */
  function Appended(m: map<Key, Node>, k: Key, text: string): map<Key, Node> {
    m[k := File(Current(m, k) + text)]
  }

  /** Every ancestor of an entry is a directory. */
  lemma {:induction false} AncestorsAreDirs(m: map<Key, Node>, k: Key, j: nat)
    requires WellFormed(m) && k in m && j < |k|
    ensures k[..j] in m && m[k[..j]] == Dir
    decreases |k|
  {
    var u := Up(k);
    assert u in m && m[u] == Dir;
    if j == |u| {
      assert k[..j] == u;
    } else {
      AncestorsAreDirs(m, u, j);
      assert u[..j] == k[..j];
    }
  }

  /** A lookup through components without ".." finds exactly the location
      they spell out below `cur`; when every component fits it is never
      refused for length, and it succeeds whenever that location is an
      entry. */
  lemma WalkPlain(m: map<Key, Node>, cur: Key, parts: seq<string>)
    requires WellFormed(m)
    requires ".." !in parts
    ensures Walk(m, cur, parts).Found? ==> Walk(m, cur, parts).key == cur + parts
    ensures (forall i :: 0 <= i < |parts| ==> NameFits(parts[i])) ==>
      !Walk(m, cur, parts).TooLong? && (cur + parts in m && parts != [] ==> Walk(m, cur, parts) == Found(cur + parts))
  {
    WalkPlainKey(m, cur, parts);
    if forall i :: 0 <= i < |parts| ==> NameFits(parts[i]) {
      WalkPlainFits(m, cur, parts);
    }
  }

  /** Without "..", a lookup that succeeds lands on `cur + parts`. */
  lemma {:induction false} WalkPlainKey(m: map<Key, Node>, cur: Key, parts: seq<string>)
    requires ".." !in parts
    ensures Walk(m, cur, parts).Found? ==> Walk(m, cur, parts).key == cur + parts
    decreases |parts|
  {
    if parts != [] && |parts| > 1 {
      assert parts[0] in parts;
      var next := cur + [parts[0]];
      assert next + parts[1..] == cur + parts;
      assert forall x :: x in parts[1..] ==> x in parts;
      WalkPlainKey(m, next, parts[1..]);
    }
  }

  /** Without "..", and with every component within `NAME_MAX`, a lookup is
      never refused for length and finds every entry. */
  lemma {:induction false} WalkPlainFits(m: map<Key, Node>, cur: Key, parts: seq<string>)
    requires WellFormed(m)
    requires ".." !in parts
    requires forall i :: 0 <= i < |parts| ==> NameFits(parts[i])
    ensures !Walk(m, cur, parts).TooLong?
    ensures cur + parts in m && parts != [] ==> Walk(m, cur, parts) == Found(cur + parts)
    decreases |parts|
  {
    if parts != [] {
      assert parts[0] in parts && NameFits(parts[0]);
      var next := cur + [parts[0]];
      assert next + parts[1..] == cur + parts;
      if |parts| > 1 {
        assert forall x :: x in parts[1..] ==> x in parts;
        assert forall i :: 0 <= i < |parts[1..]| ==> parts[1..][i] == parts[i + 1];
        WalkPlainFits(m, next, parts[1..]);
        if cur + parts in m {
          AncestorsAreDirs(m, cur + parts, |cur| + 1);
          assert (cur + parts)[..|cur| + 1] == next;
        }
      } else {
        assert parts == [parts[0]];
      }
    }
  }

  /** Removing plain files never changes a lookup that did not end in ENOTDIR,
      and a lookup that succeeds afterwards succeeded before. */
  lemma {:induction false} WalkAfterRemovingFiles(m: map<Key, Node>, n: map<Key, Node>, cur: Key, parts: seq<string>)
    requires FilesRemoved(m, n)
    ensures !Walk(m, cur, parts).NotDir? ==> Walk(n, cur, parts) == Walk(m, cur, parts)
    ensures Walk(n, cur, parts).Found? ==> Walk(m, cur, parts) == Walk(n, cur, parts)
    decreases |parts|
  {
    if parts != [] {
      if parts[0] == ".." {
        WalkAfterRemovingFiles(m, n, Up(cur), parts[1..]);
      } else if |parts| > 1 {
        WalkAfterRemovingFiles(m, n, cur + [parts[0]], parts[1..]);
      }
    }
  }

  /** Removing plain files keeps the tree well formed: a plain file is never
      the directory of another entry. */
  lemma RemovingFilesKeepsWellFormed(m: map<Key, Node>, n: map<Key, Node>)
    requires WellFormed(m) && FilesRemoved(m, n)
    ensures WellFormed(n)
  {
  }

  /** Writing a plain file inside an existing directory keeps the tree well
      formed. */
  lemma WriteKeepsWellFormed(m: map<Key, Node>, k: Key, data: string)
    requires WellFormed(m)
    requires k != [] && Up(k) in m && m[Up(k)] == Dir && !(k in m && m[k] == Dir)
    ensures WellFormed(m[k := File(data)])
  {
  }

  /** The file system: its entries and the process's working directory. */
  class FileSystem {
    var entries: map<Key, Node>
    const cwd: Key

    /** The entries form a tree of names the kernel accepts, and the working
        directory is one of its directories. */
    ghost predicate Valid()
      reads this
    {
      WellFormed(entries) && NamesFit(entries) && cwd in entries && entries[cwd] == Dir
    }

    constructor (initial: map<Key, Node>, workingDirectory: Key)
      requires WellFormed(initial) && NamesFit(initial)
      requires workingDirectory in initial && initial[workingDirectory] == Dir
      ensures Valid() && entries == initial && cwd == workingDirectory
    {
      entries := initial;
      cwd := workingDirectory;
    }

    /** `Path.mkdir()` without `parents`: the parent must be a directory. */
    method Mkdir(k: Key)
      requires Valid()
      requires k !in entries && Up(k) in entries && entries[Up(k)] == Dir
      requires k != [] && NameFits(k[|k| - 1])
      modifies this
      ensures Valid() && entries == old(entries)[k := Dir]
    {
      entries := entries[k := Dir];
    }

    /** `Path.unlink()` of a plain file. */
    method Unlink(k: Key)
      requires Valid()
      requires k in entries && entries[k].File?
      modifies this
      ensures Valid() && entries == old(entries) - {k}
    {
      entries := entries - {k};
    }

    /** `Path.rmdir()` of an empty directory other than the root and the
        working directory. */
    method Rmdir(k: Key)
      requires Valid()
      requires k != [] && k != cwd && k in entries && entries[k] == Dir && IsEmptyDir(entries, k)
      modifies this
      ensures Valid() && entries == old(entries) - {k}
    {
      entries := entries - {k};
    }

    /** `open(k, 'a')` and `write(text)`, inside an existing directory. */
    method Append(k: Key, text: string)
      requires Valid()
      requires k != [] && Up(k) in entries && entries[Up(k)] == Dir && NameFits(k[|k| - 1])
      requires !(k in entries && entries[k] == Dir)
      modifies this
      ensures Valid() && entries == Appended(old(entries), k, text)
    {
      entries := Appended(entries, k, text);
    }

    /** A host exporter writing a whole file, inside an existing directory. */
    method Write(k: Key, data: string)
      requires Valid()
      requires k != [] && Up(k) in entries && entries[Up(k)] == Dir && NameFits(k[|k| - 1])
      requires !(k in entries && entries[k] == Dir)
      modifies this
      ensures Valid() && entries == old(entries)[k := File(data)]
    {
      entries := entries[k := File(data)];
    }
  }
}
