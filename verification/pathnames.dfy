/** Path strings as the benchmark harness takes them apart and puts them back
    together: Python's one-character `str.split`, the base name derived in
    `bypass_dna`, the `{path}/{name}.{ext}` paths rebuilt by `align_files`,
    and the three name extractors imported from `utils`. */
module PathNames {

  /** Index of the first occurrence of `c` in `s`. */
  function FirstIndex(s: string, c: char): (i: nat)
    requires c in s
    ensures i < |s| && s[i] == c
    ensures c !in s[..i]
  {
    if s[0] == c then 0
    else
      assert s == [s[0]] + s[1..];
      var j := FirstIndex(s[1..], c);
      assert s[..j + 1] == [s[0]] + s[1..][..j];
      j + 1
  }

  /** Python's `c.join(pieces)`. */
  function Join(pieces: seq<string>, c: char): string
    requires |pieces| >= 1
    decreases |pieces|
  {
    if |pieces| == 1 then pieces[0] else pieces[0] + [c] + Join(pieces[1..], c)
  }

  /** Python's `s.split(c)`: the maximal pieces of `s` free of `c`, left to
      right; joining them with `c` gives `s` back. */
  function Split(s: string, c: char): (pieces: seq<string>)
    ensures |pieces| >= 1
    ensures forall k :: 0 <= k < |pieces| ==> c !in pieces[k]
    ensures Join(pieces, c) == s
    decreases |s|
  {
    if c !in s then [s]
    else
      var i := FirstIndex(s, c);
      assert s == s[..i] + [c] + s[i + 1..];
      [s[..i]] + Split(s[i + 1..], c)
  }

  lemma {:induction false} JoinSnoc(pieces: seq<string>, last: string, c: char)
    requires |pieces| >= 1
    ensures Join(pieces + [last], c) == Join(pieces, c) + [c] + last
    decreases |pieces|
  {
    if |pieces| == 1 {
      assert (pieces + [last])[1..] == [last];
    } else {
      assert (pieces + [last])[1..] == pieces[1..] + [last];
      JoinSnoc(pieces[1..], last, c);
    }
  }

  /** `Split` undoes `Join`: a list of separator-free pieces is exactly what
      splitting their join gives back. With the `ensures` of `Split`, the two
      are inverse to each other. */
  lemma {:induction false} SplitJoin(pieces: seq<string>, c: char)
    requires |pieces| >= 1
    requires forall k :: 0 <= k < |pieces| ==> c !in pieces[k]
    ensures Split(Join(pieces, c), c) == pieces
    decreases |pieces|
  {
    if |pieces| > 1 {
      var s := Join(pieces, c);
      var p := pieces[0];
      var rest := Join(pieces[1..], c);
      assert s == p + [c] + rest;
      assert s[..|p|] == p;
      assert s[|p|] == c;
      var i := FirstIndex(s, c);
      assert i == |p|;
      assert s[i + 1..] == rest;
      SplitJoin(pieces[1..], c);
      assert pieces == [p] + pieces[1..];
    }
  }

  /** Appending `c + q` to a string adds exactly one piece, `q`, to its split. */
  lemma SplitSnoc(prefix: string, q: string, c: char)
    requires c !in q
    ensures Split(prefix + [c] + q, c) == Split(prefix, c) + [q]
  {
    var ps := Split(prefix, c);
    JoinSnoc(ps, q, c);
    assert forall k :: 0 <= k < |ps + [q]| ==> c !in (ps + [q])[k];
    SplitJoin(ps + [q], c);
  }

  /** Python's `s.split(c)[-1]`: what follows the last `c`, or all of `s`. */
  function LastPiece(s: string, c: char): (r: string)
    ensures c !in r
    ensures c !in s ==> r == s
  {
    var ps := Split(s, c);
    ps[|ps| - 1]
  }

  lemma LastPieceAfter(prefix: string, q: string, c: char)
    requires c !in q
    ensures LastPiece(prefix + [c] + q, c) == q
  {
    SplitSnoc(prefix, q, c);
  }

  /** Python's `s.split(c)[0]`: what precedes the first `c`, or all of `s`. */
  function BeforeFirst(s: string, c: char): (r: string)
    ensures c !in r
    ensures r <= s
    ensures c in s ==> |r| < |s| && s[|r|] == c
    ensures c !in s ==> r == s
  {
    var ps := Split(s, c);
    if |ps| == 1 then ps[0]
    else
      assert s == ps[0] + [c] + Join(ps[1..], c);
      ps[0]
  }

  /** Cutting at the first `c` recovers a `c`-free head, whatever follows. */
  lemma BeforeFirstOf(head: string, tail: string, c: char)
    requires c !in head
    ensures BeforeFirst(head + [c] + tail, c) == head
  {
    var s := head + [c] + tail;
    assert s[..|head|] == head;
    assert s[|head|] == c;
  }

  /** Everything before the last `c` (the empty string when there is none):
      a string is that prefix, a `c` and its last piece. */
  function BeforeLast(s: string, c: char): (r: string)
    ensures c in s ==> r + [c] + LastPiece(s, c) == s
    ensures c !in s ==> r == ""
  {
    var ps := Split(s, c);
    if |ps| == 1 then ""
    else
      var n := |ps| - 1;
      assert ps[..n] + [ps[n]] == ps;
      JoinSnoc(ps[..n], ps[n], c);
      Join(ps[..n], c)
  }

  lemma BeforeLastOf(prefix: string, q: string, c: char)
    requires c !in q
    ensures BeforeLast(prefix + [c] + q, c) == prefix
  {
    SplitSnoc(prefix, q, c);
    var ps := Split(prefix, c);
    assert (ps + [q])[..|ps|] == ps;
  }

  /** The parent directory: everything before the last `/`, or the empty
      string when there is none. A path is its parent, a slash and its last
      segment. */
  function Parent(s: string): (r: string)
    ensures '/' in s ==> r + "/" + LastPiece(s, '/') == s
    ensures '/' !in s ==> r == ""
  {
    BeforeLast(s, '/')
  }

  /** The extension of a path: what follows the last `.` of its last
      segment, or the empty string when that segment has no `.`. */
  function ExtensionOf(s: string): (r: string)
    ensures PlainName(r)
    ensures '.' !in LastPiece(s, '/') ==> r == ""
  {
    var segment := LastPiece(s, '/');
    if '.' in segment then
      var e := LastPiece(segment, '.');
      var before := BeforeLast(segment, '.');
      assert before + ['.'] + e == segment;
      e
    else ""
  }

  /** The name of a path without directory or extension: its last segment
      up to the final `.` (the whole segment when it has none). With the
      extension it makes up the last segment again. */
  function Stem(s: string): (r: string)
    ensures '/' !in r
    ensures '.' in LastPiece(s, '/') ==> r + "." + ExtensionOf(s) == LastPiece(s, '/')
    ensures '.' !in LastPiece(s, '/') ==> r == LastPiece(s, '/')
  {
    var segment := LastPiece(s, '/');
    if '.' in segment then BeforeLast(segment, '.') else segment
  }

  /** The name derived in `bypass_dna`: `s.split("/")[-1].split(".")[0]`,
      the last path segment cut at its first dot. It never holds a `/` or a
      `.`, and it is a prefix of the last segment. */
  function BaseName(s: string): (r: string)
    ensures PlainName(r)
    ensures r <= LastPiece(s, '/')
    ensures '.' !in LastPiece(s, '/') ==> r == LastPiece(s, '/')
    ensures '.' in LastPiece(s, '/') ==> |r| < |LastPiece(s, '/')| && LastPiece(s, '/')[|r|] == '.'
  {
    var segment := LastPiece(s, '/');
    var r := BeforeFirst(segment, '.');
    assert forall k :: 0 <= k < |r| ==> r[k] == segment[k];
    r
  }

  /** Base names and extensions that contain neither a `/` nor a `.`. */
  predicate PlainName(n: string)
  {
    '/' !in n && '.' !in n
  }

  /** The path `f'{path}/{name}.{ext}'` built by `align_files`. When the name
      holds no `/` and the extension is plain, its parent, stem and extension
      are exactly the directory, name and extension it was built from. */
  function JoinPath(path: string, name: string, ext: string): (r: string)
    ensures '/' !in name && PlainName(ext) ==>
      Parent(r) == path && Stem(r) == name && ExtensionOf(r) == ext
  {
    if '/' !in name && PlainName(ext) then
      PathParts(path, name, ext);
      path + "/" + name + "." + ext
    else
      path + "/" + name + "." + ext
  }

  lemma PathParts(path: string, name: string, ext: string)
    requires '/' !in name && PlainName(ext)
    ensures Parent(path + "/" + name + "." + ext) == path
    ensures Stem(path + "/" + name + "." + ext) == name
    ensures ExtensionOf(path + "/" + name + "." + ext) == ext
  {
    var s := path + "/" + name + "." + ext;
    var segment := name + "." + ext;
    assert s == path + ['/'] + segment;
    LastPieceAfter(path, segment, '/');
    BeforeLastOf(path, segment, '/');
    assert segment == name + ['.'] + ext;
    LastPieceAfter(name, ext, '.');
    BeforeLastOf(name, ext, '.');
  }

  /** Every path whose last segment has an extension is rebuilt by
      `JoinPath` from its own parent, stem and extension. */
  lemma JoinPathOfParts(s: string)
    requires '/' in s && '.' in LastPiece(s, '/')
    ensures JoinPath(Parent(s), Stem(s), ExtensionOf(s)) == s
  {
  }

  /** Different names give different paths under one directory and extension. */
  lemma JoinPathInjective(path: string, a: string, b: string, ext: string)
    requires JoinPath(path, a, ext) == JoinPath(path, b, ext)
    ensures a == b
  {
    var s := JoinPath(path, a, ext);
    assert |a| == |b|;
    assert a == s[|path| + 1..|path| + 1 + |a|];
    assert b == s[|path| + 1..|path| + 1 + |b|];
  }

  /** The `bypass_dna` base name of a rebuilt path with a plain name is that
      name. */
  lemma BaseNameOfJoinPath(path: string, name: string, ext: string)
    requires PlainName(name) && '/' !in ext
    ensures BaseName(JoinPath(path, name, ext)) == name
  {
    var tail := name + "." + ext;
    assert JoinPath(path, name, ext) == path + ['/'] + tail;
    LastPieceAfter(path, tail, '/');
    assert tail == name + ['.'] + ext;
    BeforeFirstOf(name, ext, '.');
  }

  /** The three name extractors of `utils`: parent directory, extension and
      name of a path. Their code is not part of this model, so the aligner
      takes them as values. */
  datatype Extractor = Extractor(
    parent: string -> string,
    ext: string -> string,
    name: string -> string)

  /** The extractors assumed for `utils`: the parent directory, the
      extension after the final `.` of the file name, and the file name
      without directory or extension. */
  const Assumed: Extractor := Extractor(Parent, ExtensionOf, Stem)
}
