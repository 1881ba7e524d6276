/** Text handling the list files rely on: Python's universal-newline decoding,
    `readlines()`, `str.strip()`, and the one-path-per-line layout the
    exporters write. */
module Text {

  /** The characters for which Python's `str.isspace()` holds; `str.strip()`
      with no argument removes exactly these from both ends. */
  predicate IsSpace(c: char) {
    var n := c as int;
    n == 0x20 || (0x09 <= n <= 0x0D) || (0x1C <= n <= 0x1F) || n == 0x85 || n == 0xA0 ||
    n == 0x1680 || (0x2000 <= n <= 0x200A) || n == 0x2028 || n == 0x2029 ||
    n == 0x202F || n == 0x205F || n == 0x3000
  }

  predicate NoSpaceIn(s: string) {
    forall i :: 0 <= i < |s| ==> !IsSpace(s[i])
  }

  /** Neither end of `s` is whitespace. */
  predicate NoSurroundingSpace(s: string) {
    s == [] || (!IsSpace(s[0]) && !IsSpace(s[|s| - 1]))
  }

  /** `s` with its leading whitespace removed. */
  function TrimStart(s: string): (r: string)
    ensures |r| <= |s| && r == s[|s| - |r|..]
    ensures forall i :: 0 <= i < |s| - |r| ==> IsSpace(s[i])
    ensures r == [] || !IsSpace(r[0])
    decreases |s|
  {
    if s != [] && IsSpace(s[0]) then TrimStart(s[1..]) else s
  }

  /** `s` with its trailing whitespace removed. */
  function TrimEnd(s: string): (r: string)
    ensures |r| <= |s| && r == s[..|r|]
    ensures forall i :: |r| <= i < |s| ==> IsSpace(s[i])
    ensures r == [] || !IsSpace(r[|r| - 1])
    decreases |s|
  {
    if s != [] && IsSpace(s[|s| - 1]) then TrimEnd(s[..|s| - 1]) else s
  }

  /** Python's `str.strip()`. */
  function Strip(s: string): (r: string)
    ensures |r| <= |s|
    ensures NoSurroundingSpace(r)
    ensures r == [] <==> forall i :: 0 <= i < |s| ==> IsSpace(s[i])
    ensures r == s <==> NoSurroundingSpace(s)
  {
    var t := TrimStart(s);
    assert t == [] ==> forall i :: 0 <= i < |s| ==> IsSpace(s[i]);
    assert t != [] ==> !IsSpace(s[|s| - |t|]);
    assert t != [] ==> TrimEnd(t) != [];
    TrimEnd(t)
  }

  lemma {:induction false} TrimStartAppend(s: string, t: string)
    ensures TrimStart(s + t) == if TrimStart(s) == [] then TrimStart(t) else TrimStart(s) + t
    decreases |s|
  {
    if s == [] {
      assert s + t == t;
    } else if IsSpace(s[0]) {
      assert (s + t)[1..] == s[1..] + t;
      TrimStartAppend(s[1..], t);
    } else {
      assert (s + t)[0] == s[0];
    }
  }

  /** Whitespace after the end of a string never survives `strip()`; this is
      what lets the newline an exporter appends vanish on reading. */
  lemma StripDropsTrailingSpace(s: string, w: char)
    requires IsSpace(w)
    ensures Strip(s + [w]) == Strip(s)
  {
    TrimStartAppend(s, [w]);
    var t := TrimStart(s);
    if t == [] {
      assert TrimStart([w]) == TrimStart([w][1..]);
      assert [w][1..] == [];
    } else {
      assert (t + [w])[..|t + [w]| - 1] == t;
    }
  }

  lemma StripIdempotent(s: string)
    ensures Strip(Strip(s)) == Strip(s)
  {
  }

  /** What a text-mode read (`open(..., 'r')`, newline=None) delivers: both
      `"\r\n"` and a lone `"\r"` become `"\n"`. */
  function Translate(s: string): (r: string)
    ensures '\r' !in r
    ensures |r| <= |s|
    decreases |s|
  {
    if s == [] then []
    else if s[0] == '\r' then
      "\n" + Translate(if |s| > 1 && s[1] == '\n' then s[2..] else s[1..])
    else [s[0]] + Translate(s[1..])
  }

  lemma {:induction false} TranslatePlain(s: string)
    requires '\r' !in s
    ensures Translate(s) == s
    decreases |s|
  {
    if s != [] {
      assert s[0] in s;
      assert forall c :: c in s[1..] ==> c in s;
      TranslatePlain(s[1..]);
    }
  }

  /** Length of the first line of `s`, its terminating newline included. */
  function LineLength(s: string): (n: nat)
    requires s != []
    ensures 1 <= n <= |s|
    ensures forall i :: 0 <= i < n - 1 ==> s[i] != '\n'
    ensures n < |s| ==> s[n - 1] == '\n'
    decreases |s|
  {
    if s[0] == '\n' || |s| == 1 then 1 else 1 + LineLength(s[1..])
  }

  /** `readlines()`: the text cut after every newline. */
  function ReadLines(s: string): (lines: seq<string>)
    decreases |s|
  {
    if s == [] then []
    else
      var n := LineLength(s);
      [s[..n]] + ReadLines(s[n..])
  }

  /** No line is empty, a newline can only end a line, and only the last line
      may lack one. */
  lemma {:induction false} ReadLinesShape(s: string)
    ensures forall i :: 0 <= i < |ReadLines(s)| ==> ReadLines(s)[i] != []
    ensures forall i, j :: 0 <= i < |ReadLines(s)| && 0 <= j < |ReadLines(s)[i]| - 1 ==> ReadLines(s)[i][j] != '\n'
    ensures forall i :: 0 <= i < |ReadLines(s)| - 1 ==> ReadLines(s)[i][|ReadLines(s)[i]| - 1] == '\n'
    decreases |s|
  {
    if s != [] {
      var n := LineLength(s);
      ReadLinesShape(s[n..]);
      var lines := ReadLines(s);
      assert lines == [s[..n]] + ReadLines(s[n..]);
      forall i | 1 <= i < |lines| ensures lines[i] == ReadLines(s[n..])[i - 1] { }
    }
  }

  function Concat(lines: seq<string>): string {
    if lines == [] then "" else lines[0] + Concat(lines[1..])
  }

  /** `readlines()` loses nothing: joining the lines gives the text back. */
  lemma {:induction false} ReadLinesConcat(s: string)
    ensures Concat(ReadLines(s)) == s
    decreases |s|
  {
    if s != [] {
      var n := LineLength(s);
      ReadLinesConcat(s[n..]);
      assert s[..n] + s[n..] == s;
    }
  }

  /** A path can be written on a line of its own and read back unchanged. */
  predicate Writable(e: string) {
    '\n' !in e && '\r' !in e && NoSurroundingSpace(e)
  }

  /** The text a list file holds after `f'{path}\n'` was appended for each entry. */
  function Render(entries: seq<string>): string {
    if entries == [] then "" else entries[0] + "\n" + Render(entries[1..])
  }

  lemma {:induction false} RenderSnoc(entries: seq<string>, e: string)
    ensures Render(entries + [e]) == Render(entries) + e + "\n"
  {
    if entries != [] {
      assert (entries + [e])[1..] == entries[1..] + [e];
      RenderSnoc(entries[1..], e);
    }
  }

  lemma {:induction false} RenderPlain(entries: seq<string>)
    requires forall i :: 0 <= i < |entries| ==> '\r' !in entries[i]
    ensures '\r' !in Render(entries)
  {
    if entries != [] {
      RenderPlain(entries[1..]);
    }
  }

  /** Every stripped line of a text-mode read: what both importers and the
      purge iterate over. */
  function ReadEntries(text: string): (entries: seq<string>) {
    var lines := ReadLines(Translate(text));
    seq(|lines|, i requires 0 <= i < |lines| => Strip(lines[i]))
  }

  /** The `i`-th entry is the `i`-th line read, stripped. */
  lemma ReadEntriesAt(text: string, i: nat)
    requires i < |ReadLines(Translate(text))|
    ensures |ReadEntries(text)| == |ReadLines(Translate(text))|
    ensures ReadEntries(text)[i] == Strip(ReadLines(Translate(text))[i])
  {
  }

  lemma {:induction false} LineLengthOf(e: string, rest: string)
    requires '\n' !in e
    ensures LineLength(e + "\n" + rest) == |e| + 1
    decreases |e|
  {
    var s := e + "\n" + rest;
    if e != [] {
      assert e[0] in e;
      assert s[1..] == e[1..] + "\n" + rest;
      assert forall c :: c in e[1..] ==> c in e;
      LineLengthOf(e[1..], rest);
    }
  }

  lemma ReadLinesCons(e: string, rest: string)
    requires '\n' !in e
    ensures ReadLines(e + "\n" + rest) == [e + "\n"] + ReadLines(rest)
  {
    var s := e + "\n" + rest;
    LineLengthOf(e, rest);
    assert s[..|e| + 1] == e + "\n";
    assert s[|e| + 1..] == rest;
  }

  /** One line per entry, each with its newline. */
  function Terminated(entries: seq<string>): seq<string> {
    if entries == [] then [] else [entries[0] + "\n"] + Terminated(entries[1..])
  }

  lemma {:induction false} ReadLinesRender(entries: seq<string>)
    requires forall i :: 0 <= i < |entries| ==> '\n' !in entries[i]
    ensures ReadLines(Render(entries)) == Terminated(entries)
  {
    if entries != [] {
      ReadLinesCons(entries[0], Render(entries[1..]));
      ReadLinesRender(entries[1..]);
    }
  }

  lemma {:induction false} TerminatedLength(entries: seq<string>)
    ensures |Terminated(entries)| == |entries|
  {
    if entries != [] {
      TerminatedLength(entries[1..]);
    }
  }

  lemma {:induction false} TerminatedAt(entries: seq<string>, i: nat)
    requires i < |entries|
    ensures |Terminated(entries)| == |entries| && Terminated(entries)[i] == entries[i] + "\n"
  {
    if i > 0 {
      TerminatedAt(entries[1..], i - 1);
    } else if |entries| > 1 {
      TerminatedAt(entries[1..], 0);
    }
  }

  /** The round trip the two plug-ins rely on: entries written one per line
      come back from `readlines()` + `strip()` unchanged and in order. */
  lemma ReadEntriesRender(entries: seq<string>)
    requires forall i :: 0 <= i < |entries| ==> Writable(entries[i])
    ensures ReadEntries(Render(entries)) == entries
  {
    var text := Render(entries);
    RenderPlain(entries);
    TranslatePlain(text);
    ReadLinesRender(entries);
    var lines := Terminated(entries);
    assert ReadLines(Translate(text)) == lines;
    TerminatedLength(entries);
    var r := seq(|lines|, i requires 0 <= i < |lines| => Strip(lines[i]));
    assert ReadEntries(text) == r;
    forall i | 0 <= i < |entries|
      ensures |lines| == |entries| && r[i] == entries[i]
    {
      TerminatedAt(entries, i);
      assert lines[i] == entries[i] + ['\n'];
      StripDropsTrailingSpace(entries[i], '\n');
    }
  }
}
