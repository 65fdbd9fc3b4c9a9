/** `align_files`: match files across N directory listings by base name and
    rebuild N parallel path lists, one entry per name common to all of them. */
module Alignment {
  import opened Results
  import opened PathNames

  /** Why `align_files` produces no value: its assertion that every listing
      has an element fails, or `set.intersection()` is called with no sets. */
  datatype AlignError = EmptyListing | NoListings

  predicate Distinct<T(==)>(s: seq<T>)
  {
    forall i, j :: 0 <= i < j < |s| ==> s[i] != s[j]
  }

  /** `order` lists every element of `s` exactly once: one possible iteration
      order of a Python set. */
  ghost predicate Enumerates<T(!new)>(order: seq<T>, s: set<T>)
  {
    Distinct(order) && (forall x :: x in order <==> x in s)
  }

  lemma {:induction false} EnumerationSize<T(!new)>(order: seq<T>, s: set<T>)
    requires Enumerates(order, s)
    ensures |order| == |s|
    decreases |order|
  {
    if |order| == 0 {
      assert forall x :: x !in s;
      assert s == {};
    } else {
      var x := order[0];
      var rest := order[1..];
      assert order == [x] + rest;
      assert x !in rest by {
        assert forall j :: 0 <= j < |rest| ==> rest[j] == order[j + 1];
      }
      assert Enumerates(rest, s - {x});
      EnumerationSize(rest, s - {x});
    }
  }

  /** The base names of one listing: `set([extract_name(f) for f in listing])`. */
  function NameSet(ex: Extractor, listing: seq<string>): set<string>
  {
    set f | f in listing :: ex.name(f)
  }

  /** Some file of `listing` has base name `n`. */
  predicate HasFileNamed(ex: Extractor, listing: seq<string>, n: string)
  {
    exists f :: f in listing && ex.name(f) == n
  }

  /** `n` is the base name of some file in every listing. */
  predicate InEvery(ex: Extractor, listings: seq<seq<string>>, n: string)
  {
    forall i :: 0 <= i < |listings| ==> n in NameSet(ex, listings[i])
  }

  /** `set.intersection(*names)`, folded left to right over the listings:
      exactly the names found in every listing. */
  function Common(ex: Extractor, listings: seq<seq<string>>): (names: set<string>)
    requires |listings| >= 1
    ensures forall n :: n in names <==> InEvery(ex, listings, n)
    decreases |listings|
  {
    if |listings| == 1 then NameSet(ex, listings[0])
    else
      var rest := Common(ex, listings[1..]);
      assert forall i :: 1 <= i < |listings| ==> listings[i] == listings[1..][i - 1];
      NameSet(ex, listings[0]) * rest
  }

  /** The inputs on which `align_files` gets past its assertion and its
      intersection: at least one listing, none of them empty. */
  predicate Alignable(listings: seq<seq<string>>)
  {
    |listings| >= 1 && forall i :: 0 <= i < |listings| ==> |listings[i]| > 0
  }

  /** `order` is a possible iteration order of `common_names` whenever the
      call gets that far. */
  ghost predicate OrderFits(ex: Extractor, listings: seq<seq<string>>, order: seq<string>)
  {
    Alignable(listings) ==> Enumerates(order, Common(ex, listings))
  }

  /** The path rebuilt for `name` in a listing: directory and extension come
      from the listing's first element only. */
  function RoleEntry(ex: Extractor, listing: seq<string>, name: string): string
    requires |listing| > 0
  {
    JoinPath(ex.parent(listing[0]), name, ex.ext(listing[0]))
  }

  function Rebuild(ex: Extractor, listing: seq<string>, order: seq<string>): seq<string>
    requires |listing| > 0
  {
    seq(|order|, k requires 0 <= k < |order| => RoleEntry(ex, listing, order[k]))
  }

  /** `align_files(*listings)`, with `order` the iteration order of the
      common-name set. It fails exactly when some listing is empty (the
      assertion, checked first) or there are no listings at all; otherwise it
      returns one list per listing, in input order, each as long as the set of
      common names, and entry `k` of every list is built from name `order[k]`. */
  function AlignFiles(ex: Extractor, listings: seq<seq<string>>, order: seq<string>)
    : (r: Result<seq<seq<string>>, AlignError>)
    requires OrderFits(ex, listings, order)
    ensures r == Err(EmptyListing) <==> exists i :: 0 <= i < |listings| && |listings[i]| == 0
    ensures r == Err(NoListings) <==> |listings| == 0
    ensures r.Ok? <==> Alignable(listings)
    ensures r.Ok? ==> (Alignable(listings) && |r.value| == |listings|
      && forall i :: 0 <= i < |listings| ==> |r.value[i]| == |Common(ex, listings)|)
    ensures r.Ok? ==> (Alignable(listings) && |r.value| == |listings|
      && (forall i :: 0 <= i < |listings| ==> |r.value[i]| == |order|)
      && forall i, k :: 0 <= i < |listings| && 0 <= k < |order| ==>
           r.value[i][k] == RoleEntry(ex, listings[i], order[k]))
  {
    if exists i :: 0 <= i < |listings| && |listings[i]| == 0 then Err(EmptyListing)
    else if |listings| == 0 then Err(NoListings)
    else
      EnumerationSize(order, Common(ex, listings));
      Ok(seq(|listings|, i requires 0 <= i < |listings| => Rebuild(ex, listings[i], order)))
  }

  /** No output list repeats a path. */
  lemma AlignedDistinct(ex: Extractor, listings: seq<seq<string>>, order: seq<string>)
    requires OrderFits(ex, listings, order)
    requires AlignFiles(ex, listings, order).Ok?
    ensures forall i :: 0 <= i < |listings| ==> Distinct(AlignFiles(ex, listings, order).value[i])
  {
    var out := AlignFiles(ex, listings, order).value;
    forall i, k1, k2 | 0 <= i < |listings| && 0 <= k1 < k2 < |out[i]|
      ensures out[i][k1] != out[i][k2]
    {
      var l := listings[i];
      if out[i][k1] == out[i][k2] {
        JoinPathInjective(ex.parent(l[0]), order[k1], order[k2], ex.ext(l[0]));
      }
    }
  }

  /** A listing's rebuilt path for `n` is in its output list if and only if
      `n` is a base name in every listing; a name missing from even one
      listing appears in no output list. */
  lemma AlignedMembership(ex: Extractor, listings: seq<seq<string>>, order: seq<string>)
    requires OrderFits(ex, listings, order)
    requires AlignFiles(ex, listings, order).Ok?
    ensures forall i, n :: 0 <= i < |listings| ==>
      (RoleEntry(ex, listings[i], n) in AlignFiles(ex, listings, order).value[i] <==> InEvery(ex, listings, n))
  {
    var out := AlignFiles(ex, listings, order).value;
    var common := Common(ex, listings);
    forall i, n | 0 <= i < |listings|
      ensures RoleEntry(ex, listings[i], n) in out[i] <==> InEvery(ex, listings, n)
    {
      var l := listings[i];
      if RoleEntry(ex, l, n) in out[i] {
        var k :| 0 <= k < |out[i]| && out[i][k] == RoleEntry(ex, l, n);
        JoinPathInjective(ex.parent(l[0]), order[k], n, ex.ext(l[0]));
        assert order[k] in common;
      }
      if InEvery(ex, listings, n) {
        assert n in order;
        var k :| 0 <= k < |order| && order[k] == n;
        assert out[i][k] == RoleEntry(ex, l, n);
      }
    }
  }

  /** Every name the output is built from is the base name of some file in
      every listing; entry `k` of every output list is built from `order[k]`
      (the `ensures` of `AlignFiles`). */
  lemma AlignedNamesOccurEverywhere(ex: Extractor, listings: seq<seq<string>>, order: seq<string>)
    requires OrderFits(ex, listings, order)
    requires AlignFiles(ex, listings, order).Ok?
    ensures forall j, k :: 0 <= j < |listings| && 0 <= k < |order| ==> HasFileNamed(ex, listings[j], order[k])
  {
    forall j, k | 0 <= j < |listings| && 0 <= k < |order|
      ensures HasFileNamed(ex, listings[j], order[k])
    {
      assert order[k] in Common(ex, listings);
      assert InEvery(ex, listings, order[k]);
      assert order[k] in NameSet(ex, listings[j]);
      var f :| f in listings[j] && ex.name(f) == order[k];
    }
  }

  /** Under the assumption that `extract_name` recovers the name a path was
      rebuilt from, the paths at one position all have the same extracted
      name, and it is a common name. */
  lemma AlignedNamesAgree(ex: Extractor, listings: seq<seq<string>>, order: seq<string>)
    requires OrderFits(ex, listings, order)
    requires AlignFiles(ex, listings, order).Ok?
    // Assumption about `utils`, whose code is not part of this model.
    requires forall i, n :: 0 <= i < |listings| && InEvery(ex, listings, n) ==>
      ex.name(RoleEntry(ex, listings[i], n)) == n
    ensures forall i, j, k :: 0 <= i < |listings| && 0 <= j < |listings| && 0 <= k < |order| ==>
      ex.name(AlignFiles(ex, listings, order).value[i][k])
        == ex.name(AlignFiles(ex, listings, order).value[j][k])
    ensures forall i, k :: 0 <= i < |listings| && 0 <= k < |order| ==>
      ex.name(AlignFiles(ex, listings, order).value[i][k]) in Common(ex, listings)
  {
    var out := AlignFiles(ex, listings, order).value;
    forall i, k | 0 <= i < |listings| && 0 <= k < |order|
      ensures ex.name(out[i][k]) == order[k]
    {
      assert order[k] in Common(ex, listings);
    }
  }

  /** With the assumed extractors the hypothesis above always holds, so the
      paths at one position share one name. */
  lemma AssumedNamesAgree(listings: seq<seq<string>>, order: seq<string>)
    requires OrderFits(Assumed, listings, order)
    requires AlignFiles(Assumed, listings, order).Ok?
    ensures forall i, k :: 0 <= i < |listings| && 0 <= k < |order| ==>
      Stem(AlignFiles(Assumed, listings, order).value[i][k]) == order[k]
    ensures forall i, j, k :: 0 <= i < |listings| && 0 <= j < |listings| && 0 <= k < |order| ==>
      Assumed.name(AlignFiles(Assumed, listings, order).value[i][k])
        == Assumed.name(AlignFiles(Assumed, listings, order).value[j][k])
  {
    var ex := Assumed;
    forall i, n | 0 <= i < |listings| && InEvery(ex, listings, n)
      ensures ex.name(RoleEntry(ex, listings[i], n)) == n
    {
      assert n in NameSet(ex, listings[0]);
      var f :| f in listings[0] && Stem(f) == n;
      assert RoleEntry(ex, listings[i], n) == JoinPath(Parent(listings[i][0]), n, ExtensionOf(listings[i][0]));
    }
    AlignedNamesAgree(ex, listings, order);
    var out := AlignFiles(ex, listings, order).value;
    forall i, k | 0 <= i < |listings| && 0 <= k < |order|
      ensures Stem(out[i][k]) == order[k]
    {
      assert order[k] in Common(ex, listings);
    }
  }

  /** The iteration order of the common names changes only the positions of
      the entries, never which paths each list holds. */
  lemma OrderIndependent(ex: Extractor, listings: seq<seq<string>>, o1: seq<string>, o2: seq<string>)
    requires OrderFits(ex, listings, o1) && OrderFits(ex, listings, o2)
    requires AlignFiles(ex, listings, o1).Ok?
    ensures AlignFiles(ex, listings, o2).Ok?
    ensures forall i :: 0 <= i < |listings| ==>
      |AlignFiles(ex, listings, o1).value[i]| == |AlignFiles(ex, listings, o2).value[i]|
    ensures forall i, p :: 0 <= i < |listings| ==>
      (p in AlignFiles(ex, listings, o1).value[i] <==> p in AlignFiles(ex, listings, o2).value[i])
  {
    var out1 := AlignFiles(ex, listings, o1).value;
    var out2 := AlignFiles(ex, listings, o2).value;
    AlignedMembership(ex, listings, o1);
    AlignedMembership(ex, listings, o2);
    forall i, p | 0 <= i < |listings| && p in out1[i]
      ensures p in out2[i]
    {
      var k :| 0 <= k < |out1[i]| && out1[i][k] == p;
      assert o1[k] in Common(ex, listings);
    }
    forall i, p | 0 <= i < |listings| && p in out2[i]
      ensures p in out1[i]
    {
      var k :| 0 <= k < |out2[i]| && out2[i][k] == p;
      assert o2[k] in Common(ex, listings);
    }
  }

  /** A directory listing of files named `names`, all with extension `ext`. */
  function Listing(dir: string, names: seq<string>, ext: string): seq<string>
  {
    seq(|names|, k requires 0 <= k < |names| => JoinPath(dir, names[k], ext))
  }

  /** The assumed extractors read back the names, directory and
      extension of such a listing. */
  lemma ListingParts(dir: string, names: seq<string>, ext: string)
    requires forall k :: 0 <= k < |names| ==> '/' !in names[k]
    requires PlainName(ext)
    ensures NameSet(Assumed, Listing(dir, names, ext)) == set n | n in names
    ensures |names| > 0 ==> (Assumed.parent(Listing(dir, names, ext)[0]) == dir
                          && Assumed.ext(Listing(dir, names, ext)[0]) == ext)
  {
    var l := Listing(dir, names, ext);
    forall k | 0 <= k < |names|
      ensures Stem(l[k]) == names[k]
      ensures Parent(l[k]) == dir && ExtensionOf(l[k]) == ext
    {
      assert l[k] == JoinPath(dir, names[k], ext);
    }
    assert NameSet(Assumed, l) == set n | n in names by {
      forall n | n in NameSet(Assumed, l)
        ensures n in names
      {
        var f :| f in l && Stem(f) == n;
        var k :| 0 <= k < |l| && l[k] == f;
      }
      forall n | n in names
        ensures n in NameSet(Assumed, l)
      {
        var k :| 0 <= k < |names| && names[k] == n;
        assert l[k] in l;
      }
    }
  }

  lemma NamesOfThree(a: string, b: string, c: string, dir: string, ext: string)
    requires PlainName(a) && PlainName(b) && PlainName(c) && PlainName(ext)
    ensures NameSet(Assumed, Listing(dir, [a, b, c], ext)) == {a, b, c}
  {
    ListingParts(dir, [a, b, c], ext);
  }

  lemma NamesOfTwo(a: string, b: string, dir: string, ext: string)
    requires PlainName(a) && PlainName(b) && PlainName(ext)
    ensures NameSet(Assumed, Listing(dir, [a, b], ext)) == {a, b}
  {
    ListingParts(dir, [a, b], ext);
  }

  /** Three listings whose name sets are `{a, b, c}`, `{a, b}` and `{a, b}`
      have `a` and `b` in common. */
  lemma CommonOfThree(l0: seq<string>, l1: seq<string>, l2: seq<string>, a: string, b: string, c: string)
    requires NameSet(Assumed, l0) == {a, b, c}
    requires NameSet(Assumed, l1) == {a, b}
    requires NameSet(Assumed, l2) == {a, b}
    requires c != a && c != b
    ensures Common(Assumed, [l0, l1, l2]) == {a, b}
  {
    assert [l0, l1, l2][1..] == [l1, l2];
    assert [l1, l2][1..] == [l2];
    assert Common(Assumed, [l1, l2]) == {a, b} * {a, b};
    assert {a, b, c} * ({a, b} * {a, b}) == {a, b};
  }

  /** `c` exists only in the first listing, so the common names are `a` and `b`. */
  lemma ScenarioCommon(a: string, b: string, c: string, dx: string, dy: string, dz: string, ext: string)
    requires PlainName(a) && PlainName(b) && PlainName(c) && PlainName(ext)
    requires c != a && c != b
    ensures Common(Assumed, [Listing(dx, [a, b, c], ext), Listing(dy, [a, b], ext), Listing(dz, [a, b], ext)])
      == {a, b}
  {
    NamesOfThree(a, b, c, dx, ext);
    NamesOfTwo(a, b, dy, ext);
    NamesOfTwo(a, b, dz, ext);
    CommonOfThree(Listing(dx, [a, b, c], ext), Listing(dy, [a, b], ext), Listing(dz, [a, b], ext), a, b, c);
  }

  /** Rebuilding a listing's paths for other names keeps its directory and
      extension. */
  lemma RebuildListing(dir: string, names: seq<string>, ext: string, order: seq<string>)
    requires |names| > 0
    requires forall k :: 0 <= k < |names| ==> '/' !in names[k]
    requires PlainName(ext)
    ensures Rebuild(Assumed, Listing(dir, names, ext), order) == Listing(dir, order, ext)
  {
    ListingParts(dir, names, ext);
  }

  /** A two-element set has exactly two iteration orders. */
  lemma TwoOrders(a: string, b: string, order: seq<string>)
    requires a != b
    requires Enumerates(order, {a, b})
    ensures order == [a, b] || order == [b, a]
  {
    EnumerationSize(order, {a, b});
    assert order[0] in {a, b} && order[1] in {a, b} && order[0] != order[1];
  }

  /** On three alignable listings, row `i` is listing `i` rebuilt for every
      name in iteration order. */
  lemma AlignedRowsOfThree(ex: Extractor, l0: seq<string>, l1: seq<string>, l2: seq<string>, order: seq<string>)
    requires OrderFits(ex, [l0, l1, l2], order)
    requires |l0| > 0 && |l1| > 0 && |l2| > 0
    ensures AlignFiles(ex, [l0, l1, l2], order)
      == Ok([Rebuild(ex, l0, order), Rebuild(ex, l1, order), Rebuild(ex, l2, order)])
  {
    var listings := [l0, l1, l2];
    assert Alignable(listings);
    var r := AlignFiles(ex, listings, order).value;
    assert |r| == 3;
    forall i | 0 <= i < 3
      ensures r[i] == Rebuild(ex, listings[i], order)
    {
      assert |r[i]| == |order|;
      assert forall k :: 0 <= k < |order| ==> r[i][k] == RoleEntry(ex, listings[i], order[k]);
    }
    assert r == [r[0], r[1], r[2]];
  }

  /** Three listings of plain names under one extension align to the
      listings of the iteration order under their own directories. */
  lemma AlignThreeListings(dx: string, nx: seq<string>, dy: string, ny: seq<string>, dz: string, nz: seq<string>,
                           ext: string, order: seq<string>)
    requires |nx| > 0 && |ny| > 0 && |nz| > 0
    requires forall k :: 0 <= k < |nx| ==> '/' !in nx[k]
    requires forall k :: 0 <= k < |ny| ==> '/' !in ny[k]
    requires forall k :: 0 <= k < |nz| ==> '/' !in nz[k]
    requires PlainName(ext)
    requires OrderFits(Assumed, [Listing(dx, nx, ext), Listing(dy, ny, ext), Listing(dz, nz, ext)], order)
    ensures AlignFiles(Assumed, [Listing(dx, nx, ext), Listing(dy, ny, ext), Listing(dz, nz, ext)], order)
      == Ok([Listing(dx, order, ext), Listing(dy, order, ext), Listing(dz, order, ext)])
  {
    RebuildListing(dx, nx, ext, order);
    RebuildListing(dy, ny, ext, order);
    RebuildListing(dz, nz, ext, order);
    AlignedRowsOfThree(Assumed, Listing(dx, nx, ext), Listing(dy, ny, ext), Listing(dz, nz, ext), order);
  }

  /** In the three-directory layout the common names are `a` and `b`, so
      they are iterated in one of two orders. */
  lemma ScenarioOrders(a: string, b: string, c: string, dx: string, dy: string, dz: string,
                       ext: string, order: seq<string>)
    requires PlainName(a) && PlainName(b) && PlainName(c) && PlainName(ext)
    requires a != b && c != a && c != b
    requires OrderFits(Assumed, [Listing(dx, [a, b, c], ext), Listing(dy, [a, b], ext),
                                    Listing(dz, [a, b], ext)], order)
    ensures order == [a, b] || order == [b, a]
  {
    var l0, l1, l2 := Listing(dx, [a, b, c], ext), Listing(dy, [a, b], ext), Listing(dz, [a, b], ext);
    assert Alignable([l0, l1, l2]);
    ScenarioCommon(a, b, c, dx, dy, dz, ext);
    TwoOrders(a, b, order);
  }

  /** Directories `dx`, `dy` and `dz` hold files named `a` and `b`, and `dx`
      also holds one named `c`, all with one plain extension: whatever the
      iteration order, alignment gives three lists of two paths each, built
      from `a` and `b` only, in one order shared by all three. */
  lemma ThreeDirectoryScenario(a: string, b: string, c: string, dx: string, dy: string, dz: string,
                               ext: string, order: seq<string>)
    requires PlainName(a) && PlainName(b) && PlainName(c) && PlainName(ext)
    requires a != b && c != a && c != b
    requires OrderFits(Assumed, [Listing(dx, [a, b, c], ext), Listing(dy, [a, b], ext),
                                    Listing(dz, [a, b], ext)], order)
    ensures order == [a, b] || order == [b, a]
    ensures AlignFiles(Assumed, [Listing(dx, [a, b, c], ext), Listing(dy, [a, b], ext),
                                    Listing(dz, [a, b], ext)], order)
      == Ok([Listing(dx, order, ext), Listing(dy, order, ext), Listing(dz, order, ext)])
  {
    ScenarioOrders(a, b, c, dx, dy, dz, ext, order);
    AlignThreeListings(dx, [a, b, c], dy, [a, b], dz, [a, b], ext, order);
  }

  /** Listings that all have the name set `names` have exactly those names
      in common. */
  lemma CommonOfUniform(ex: Extractor, listings: seq<seq<string>>, names: set<string>)
    requires |listings| >= 1
    requires forall i :: 0 <= i < |listings| ==> NameSet(ex, listings[i]) == names
    ensures Common(ex, listings) == names
  {
    forall n
      ensures n in Common(ex, listings) <==> n in names
    {
      assert n in names ==> InEvery(ex, listings, n);
      assert InEvery(ex, listings, n) ==> n in NameSet(ex, listings[0]);
    }
  }

  /** File names hold no `/`, so no common name does. */
  lemma CommonNamesInSegment(listings: seq<seq<string>>, order: seq<string>)
    requires OrderFits(Assumed, listings, order)
    requires Alignable(listings)
    ensures forall k :: 0 <= k < |order| ==> '/' !in order[k]
  {
    var common := Common(Assumed, listings);
    forall k | 0 <= k < |order|
      ensures '/' !in order[k]
    {
      assert order[k] in common;
      assert InEvery(Assumed, listings, order[k]);
      assert order[k] in NameSet(Assumed, listings[0]);
      var f :| f in listings[0] && Stem(f) == order[k];
    }
  }

  /** Output list `i` has the common names as its names, and the directory
      and extension of listing `i`. */
  lemma OutputRow(listings: seq<seq<string>>, order: seq<string>, i: nat)
    requires OrderFits(Assumed, listings, order)
    requires Alignable(listings) && i < |listings| && |order| > 0
    ensures |AlignFiles(Assumed, listings, order).value[i]| > 0
    ensures NameSet(Assumed, AlignFiles(Assumed, listings, order).value[i]) == Common(Assumed, listings)
    ensures Parent(AlignFiles(Assumed, listings, order).value[i][0]) == Parent(listings[i][0])
    ensures ExtensionOf(AlignFiles(Assumed, listings, order).value[i][0]) == ExtensionOf(listings[i][0])
  {
    var dir := Parent(listings[i][0]);
    var ext := ExtensionOf(listings[i][0]);
    CommonNamesInSegment(listings, order);
    AlignedRowIsListing(listings, order, i);
    ListingParts(dir, order, ext);
    assert (set n | n in order) == Common(Assumed, listings);
  }

  /** Output list `i` is the listing of the common names under listing `i`'s
      directory and extension. */
  lemma AlignedRowIsListing(listings: seq<seq<string>>, order: seq<string>, i: nat)
    requires OrderFits(Assumed, listings, order)
    requires Alignable(listings) && i < |listings|
    ensures AlignFiles(Assumed, listings, order).value[i]
      == Listing(Parent(listings[i][0]), order, ExtensionOf(listings[i][0]))
  {
    var out := AlignFiles(Assumed, listings, order).value;
    var l := Listing(Parent(listings[i][0]), order, ExtensionOf(listings[i][0]));
    assert |out[i]| == |order| == |l|;
    forall k | 0 <= k < |order|
      ensures out[i][k] == l[k]
    {
      assert out[i][k] == RoleEntry(Assumed, listings[i], order[k]);
    }
  }

  /** Lists that are already the rebuilt paths of `listings`, under the same
      directories and extensions, align to themselves. */
  lemma RealignStable(ex: Extractor, listings: seq<seq<string>>, order: seq<string>, out: seq<seq<string>>)
    requires Alignable(listings) && Alignable(out) && |out| == |listings|
    requires OrderFits(ex, out, order)
    requires forall i :: 0 <= i < |listings| ==> |out[i]| == |order|
    requires forall i, k :: 0 <= i < |listings| && 0 <= k < |order| ==>
      out[i][k] == RoleEntry(ex, listings[i], order[k])
    requires forall i :: 0 <= i < |listings| ==>
      ex.parent(out[i][0]) == ex.parent(listings[i][0]) && ex.ext(out[i][0]) == ex.ext(listings[i][0])
    ensures AlignFiles(ex, out, order) == Ok(out)
  {
    var again := AlignFiles(ex, out, order).value;
    forall i | 0 <= i < |out|
      ensures again[i] == out[i]
    {
      forall k | 0 <= k < |order|
        ensures again[i][k] == out[i][k]
      {
        assert again[i][k] == RoleEntry(ex, out[i], order[k]);
      }
    }
    assert |again| == |out|;
    assert again == out;
  }

  /** With the assumed extractors, aligning the output of an alignment
      again, in the same iteration order, changes nothing: every output list
      already holds exactly the common names, under its listing's directory
      and extension. */
  lemma AlignIdempotent(listings: seq<seq<string>>, order: seq<string>)
    requires OrderFits(Assumed, listings, order)
    requires Alignable(listings) && |order| > 0
    ensures OrderFits(Assumed, AlignFiles(Assumed, listings, order).value, order)
    ensures AlignFiles(Assumed, AlignFiles(Assumed, listings, order).value, order)
      == AlignFiles(Assumed, listings, order)
  {
    var ex := Assumed;
    var common := Common(ex, listings);
    var out := AlignFiles(ex, listings, order).value;
    forall i | 0 <= i < |listings|
      ensures |out[i]| > 0
      ensures NameSet(ex, out[i]) == common
      ensures ex.parent(out[i][0]) == ex.parent(listings[i][0])
      ensures ex.ext(out[i][0]) == ex.ext(listings[i][0])
    {
      OutputRow(listings, order, i);
    }
    CommonOfUniform(ex, out, common);
    RealignStable(ex, listings, order, out);
  }
}
