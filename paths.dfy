/** Lexical POSIX paths, as `pathlib.PurePosixPath` parses, prints and
    compares them. Nothing here looks at a filesystem. */
module Paths {

  /** A parsed path: its anchor ("" for a relative path, "/" or the distinct
      POSIX root "//") and its components. */
  datatype PurePath = PurePath(root: string, parts: seq<string>)

  /** What the parser keeps as a component: never empty, never ".", no slash.
      ".." IS kept: the parser does not collapse it. */
  predicate IsPart(c: string) {
    c != "" && c != "." && '/' !in c
  }

  /** Number of characters before the first slash. */
  function SegmentLength(s: string): (n: nat)
    ensures n <= |s|
    ensures forall i :: 0 <= i < n ==> s[i] != '/'
    ensures n < |s| ==> s[n] == '/'
    decreases |s|
  {
    if s == [] || s[0] == '/' then 0 else 1 + SegmentLength(s[1..])
  }

  /** The slash-separated pieces of `s`, dropping empty pieces and ".". */
  function Components(s: string): (parts: seq<string>)
    ensures forall i :: 0 <= i < |parts| ==> IsPart(parts[i])
    decreases |s|
  {
    if s == [] then []
    else
      var n := SegmentLength(s);
      var seg := s[..n];
      assert '/' !in seg;
      var rest := if n < |s| then Components(s[n + 1..]) else [];
      if seg == "" || seg == "." then rest else [seg] + rest
  }

  /** `PurePosixPath(s)`. Exactly two leading slashes keep the root "//";
      one, or three and more, give "/". */
  function Parse(s: string): (p: PurePath)
    ensures p.root == "" <==> (s == [] || s[0] != '/')
    ensures forall i :: 0 <= i < |p.parts| ==> IsPart(p.parts[i])
  {
    var root :=
      if |s| >= 2 && s[0] == '/' && s[1] == '/' && (|s| == 2 || s[2] != '/') then "//"
      else if |s| >= 1 && s[0] == '/' then "/"
      else "";
    PurePath(root, Components(s))
  }

  function Join(parts: seq<string>): string {
    if parts == [] then ""
    else if |parts| == 1 then parts[0]
    else parts[0] + "/" + Join(parts[1..])
  }

  /** `str()` of a path. */
  function Format(p: PurePath): string {
    if p.root == "" && p.parts == [] then "." else p.root + Join(p.parts)
  }

  /** `p.parents`: every proper ancestor, nearest first, ending with the
      anchor itself ("." for a relative path). */
  function Parents(p: PurePath): seq<PurePath> {
    seq(|p.parts|, i requires 0 <= i < |p.parts| => PurePath(p.root, p.parts[..|p.parts| - 1 - i]))
  }

  /** Membership in `parents` is the proper-prefix relation on components
      under the same anchor. */
  lemma ParentsIff(p: PurePath, q: PurePath)
    ensures q in Parents(p) <==>
      q.root == p.root && |q.parts| < |p.parts| && q.parts == p.parts[..|q.parts|]
  {
    var ps := Parents(p);
    if q.root == p.root && |q.parts| < |p.parts| && q.parts == p.parts[..|q.parts|] {
      var i := |p.parts| - 1 - |q.parts|;
      assert ps[i] == q;
    }
  }

  lemma {:induction false} ComponentsSlash(s: string)
    ensures Components("/" + s) == Components(s)
  {
    var t := "/" + s;
    assert SegmentLength(t) == 0;
    assert t[1..] == s;
  }

  lemma {:induction false} ComponentsJoin(parts: seq<string>)
    requires forall i :: 0 <= i < |parts| ==> IsPart(parts[i])
    ensures Components(Join(parts)) == parts
  {
    if parts == [] {
    } else {
      var c := parts[0];
      assert IsPart(c);
      SegmentLengthOf(c, if |parts| == 1 then "" else "/" + Join(parts[1..]));
      if |parts| == 1 {
        assert c + "" == c;
        assert Join(parts) == c;
        assert Join(parts)[..|c|] == c;
      } else {
        var s := c + "/" + Join(parts[1..]);
        assert Join(parts) == s;
        assert c + ("/" + Join(parts[1..])) == s;
        assert s[..|c|] == c;
        assert s[|c| + 1..] == Join(parts[1..]);
        ComponentsJoin(parts[1..]);
        assert SegmentLength(s) == |c| < |s|;
        assert Components(s) == [c] + Components(s[|c| + 1..]);
        assert parts == [c] + parts[1..];
      }
    }
  }

  lemma {:induction false} SegmentLengthOf(c: string, rest: string)
    requires '/' !in c
    requires rest == [] || rest[0] == '/'
    ensures SegmentLength(c + rest) == |c|
    decreases |c|
  {
    if c != [] {
      assert c[0] in c;
      assert (c + rest)[1..] == c[1..] + rest;
      assert forall x :: x in c[1..] ==> x in c;
      SegmentLengthOf(c[1..], rest);
    } else {
      assert c + rest == rest;
    }
  }

  /** Printing an absolute path and parsing it again gives the same path. */
  lemma ParseFormat(parts: seq<string>)
    requires forall i :: 0 <= i < |parts| ==> IsPart(parts[i])
    ensures Parse(Format(PurePath("/", parts))) == PurePath("/", parts)
  {
    var s := Format(PurePath("/", parts));
    assert s == "/" + Join(parts);
    ComponentsSlash(Join(parts));
    ComponentsJoin(parts);
    if |parts| > 0 {
      assert Join(parts)[0] == parts[0][0] by {
        JoinStart(parts);
      }
      assert parts[0][0] in parts[0];
    }
  }

  lemma {:induction false} JoinStart(parts: seq<string>)
    requires |parts| > 0 && parts[0] != []
    ensures Join(parts) != [] && Join(parts)[0] == parts[0][0]
  {
  }
}
