/** Loading of aligned files: the extension dispatch of `load_file`, the
    eager `loader`, the generator `lazy_loader`, and `load_io_files`, which
    filters the configured roles, aligns their listings and groups the
    aligned paths by name. Decoding itself and directory listing are
    parameters. */
module Loading {
  import opened Results
  import opened PathNames
  import opened Alignment

  /** The three decoders `load_file` chooses between: `np.load`,
      `pickle.load` and `PyntCloud.from_file(...).points`. */
  datatype Format = Npy | Pkl | Ply

  /** `UnknownExtension` is the exception `load_file` raises itself;
      `UndefinedName` is Python's `NameError`; `DecodeFailed` is whatever a
      decoder raises on a file, such as a rebuilt path that is not on disk. */
  datatype LoadError =
    | UnknownExtension(ext: string)
    | UndefinedName(name: string)
    | DecodeFailed(fname: string, reason: string)

  const KnownExtensions: set<string> := {"npy", "pkl", "ply"}

  /** The extension that selects a format; `ChooseFormat` maps it back. */
  function FormatExtension(f: Format): (ext: string)
    ensures ext in KnownExtensions
    ensures ChooseFormat(ext) == Ok(f)
  {
    match f
    case Npy => "npy"
    case Pkl => "pkl"
    case Ply => "ply"
  }

  /** The decision `load_file` makes, as intended: `npy`, `pkl` and `ply`
      each select their own decoder, anything else is an unknown extension. */
  function ChooseFormat(ext: string): (r: Result<Format, LoadError>)
    ensures r.Ok? <==> ext in KnownExtensions
    ensures r.Ok? ==> ext == (match r.value case Npy => "npy" case Pkl => "pkl" case Ply => "ply")
    ensures r.Err? ==> r.error == UnknownExtension(ext)
  {
    if ext == "npy" then Ok(Npy)
    else if ext == "pkl" then Ok(Pkl)
    else if ext == "ply" then Ok(Ply)
    else Err(UnknownExtension(ext))
  }

  /** The decision as the code is written: the `pkl` branch names `pickle`,
      which the module never imports, so it raises `NameError` before any
      file is opened. */
  function DispatchAsWritten(ext: string): (r: Result<Format, LoadError>)
    ensures r.Ok? <==> ext == "npy" || ext == "ply"
    ensures r.Ok? ==> ChooseFormat(ext) == r
    ensures ext == "pkl" ==> r == Err(UndefinedName("pickle"))
    ensures ext !in KnownExtensions ==> r == Err(UnknownExtension(ext))
  {
    if ext == "npy" then Ok(Npy)
    else if ext == "pkl" then Err(UndefinedName("pickle"))
    else if ext == "ply" then Ok(Ply)
    else Err(UnknownExtension(ext))
  }

  /** The discrepancy: a `pkl` file never loads as written, while the
      intended table decodes it with the object deserializer. */
  lemma PickleBranchFails()
    ensures DispatchAsWritten("pkl").Err?
    ensures DispatchAsWritten("pkl") != ChooseFormat("pkl")
    ensures ChooseFormat(FormatExtension(Pkl)) == Ok(Pkl)
  {
  }

  /** `load_file(fname)`, with the intended decoder table: the decoder is
      chosen from the extension alone and applied to the file; `decode`
      stands for the three decoders, each of which may raise. An unknown
      extension fails before any decoder runs; otherwise the file loads
      exactly when the chosen decoder succeeds on it. */
  function LoadFile<R>(ex: Extractor, decode: (Format, string) -> Result<R, string>, fname: string)
    : (r: Result<R, LoadError>)
    ensures ex.ext(fname) !in KnownExtensions ==> r == Err(UnknownExtension(ex.ext(fname)))
    ensures forall f :: FormatExtension(f) == ex.ext(fname) ==>
      (r.Ok? <==> decode(f, fname).Ok?)
      && (r.Ok? ==> r.value == decode(f, fname).value)
      && (r.Err? ==> r.error == DecodeFailed(fname, decode(f, fname).error))
  {
    match ChooseFormat(ex.ext(fname))
    case Err(e) => Err(e)
    case Ok(f) =>
      match decode(f, fname)
      case Ok(v) => Ok(v)
      case Err(why) => Err(DecodeFailed(fname, why))
  }

  /** `load_file` as a value, for the loaders below. */
  function FileLoader<R>(ex: Extractor, decode: (Format, string) -> Result<R, string>)
    : string -> Result<R, LoadError>
  {
    fname => LoadFile(ex, decode, fname)
  }

  /** Evaluating a list comprehension whose elements may raise: all values
      in order, or the first exception. */
  function Sequence<T, E>(items: seq<Result<T, E>>): (r: Result<seq<T>, E>)
    ensures r.Ok? <==> forall i :: 0 <= i < |items| ==> items[i].Ok?
    ensures r.Ok? ==> |r.value| == |items| && forall i :: 0 <= i < |items| ==> items[i] == Ok(r.value[i])
    ensures r.Err? ==> exists i :: (0 <= i < |items| && items[i] == Err(r.error)
      && forall j :: 0 <= j < i ==> items[j].Ok?)
    decreases |items|
  {
    if |items| == 0 then Ok([])
    else
      match items[0]
      case Err(e) => Err(e)
      case Ok(v) =>
        match Sequence(items[1..])
        case Err(e) => assert items[1..][0] == items[1]; Err(e)
        case Ok(vs) => Ok([v] + vs)
  }

  /** `loader(files, args)`: load every file up front; one result per path,
      in path order, or the first failure. */
  function Loader<R, E>(load: string -> Result<R, E>, files: seq<string>): (r: Result<seq<R>, E>)
    ensures r.Ok? <==> forall i :: 0 <= i < |files| ==> load(files[i]).Ok?
    ensures r.Ok? ==> |r.value| == |files| && forall i :: 0 <= i < |files| ==> load(files[i]) == Ok(r.value[i])
    ensures r.Err? ==> exists i :: (0 <= i < |files| && load(files[i]) == Err(r.error)
      && forall j :: 0 <= j < i ==> load(files[j]).Ok?)
  {
    var items := seq(|files|, i requires 0 <= i < |files| => load(files[i]));
    assert forall i :: 0 <= i < |files| ==> items[i] == load(files[i]);
    Sequence(items)
  }

  /** `lazy_loader(groups, args)`: the items the generator yields, one per
      group, each loading that group's files. An item that is `Err` is the
      point where consumption raises. */
  function LazyLoader<R, E>(load: string -> Result<R, E>, groups: seq<seq<string>>)
    : (items: seq<Result<seq<R>, E>>)
    ensures |items| == |groups|
  {
    seq(|groups|, k requires 0 <= k < |groups| => Loader(load, groups[k]))
  }

  /** Pulling the first `m` items touches only the first `m` groups, and an
      item depends on its own group alone. */
  lemma LazyIsLocal<R, E>(load: string -> Result<R, E>, groups: seq<seq<string>>, other: seq<seq<string>>, m: nat)
    requires m <= |groups| && m <= |other|
    requires groups[..m] == other[..m]
    ensures LazyLoader(load, groups)[..m] == LazyLoader(load, other)[..m]
    ensures LazyLoader(load, groups)[..m] == LazyLoader(load, groups[..m])
    ensures forall k :: 0 <= k < |groups| && k < |other| && groups[k] == other[k] ==>
      LazyLoader(load, groups)[k] == LazyLoader(load, other)[k]
  {
    forall k | 0 <= k < m
      ensures LazyLoader(load, groups)[k] == LazyLoader(load, other)[k]
    {
      assert groups[k] == groups[..m][k] == other[..m][k] == other[k];
    }
  }

  predicate Rectangular<T>(rows: seq<seq<T>>, width: nat)
  {
    forall k :: 0 <= k < |rows| ==> |rows[k]| == width
  }

  /** Element `i` of every row. */
  function Column<T>(rows: seq<seq<T>>, width: nat, i: nat): seq<T>
    requires Rectangular(rows, width) && i < width
  {
    seq(|rows|, k requires 0 <= k < |rows| => rows[k][i])
  }

  /** Consuming the lazy items completely succeeds exactly when every file of
      every group loads, and then yields, for every role `i`, the same records
      in the same order as the eager loader over role `i`'s files. */
  lemma LazyMatchesEager<R, E>(load: string -> Result<R, E>, groups: seq<seq<string>>, width: nat)
    requires Rectangular(groups, width)
    ensures Sequence(LazyLoader(load, groups)).Ok? <==>
      forall k, i :: 0 <= k < |groups| && 0 <= i < width ==> load(groups[k][i]).Ok?
    ensures Sequence(LazyLoader(load, groups)).Ok? ==>
      Rectangular(Sequence(LazyLoader(load, groups)).value, width)
      && forall i :: 0 <= i < width ==>
           Loader(load, Column(groups, width, i)) == Ok(Column(Sequence(LazyLoader(load, groups)).value, width, i))
  {
    var items := LazyLoader(load, groups);
    var all := Sequence(items);
    if all.Ok? {
      var rows := all.value;
      forall k | 0 <= k < |groups|
        ensures |rows[k]| == width
        ensures forall i :: 0 <= i < width ==> load(groups[k][i]) == Ok(rows[k][i])
      {
        assert items[k] == Loader(load, groups[k]) == Ok(rows[k]);
      }
      forall i | 0 <= i < width
        ensures Loader(load, Column(groups, width, i)) == Ok(Column(rows, width, i))
      {
        var col := Column(groups, width, i);
        var eager := Loader(load, col);
        assert forall k :: 0 <= k < |col| ==> load(col[k]) == Ok(rows[k][i]);
        assert eager.Ok?;
        assert eager.value == Column(rows, width, i);
      }
    } else {
      var k :| 0 <= k < |items| && items[k] == Err(all.error);
      assert Loader(load, groups[k]).Err?;
    }
  }

  /** Length of the shortest list. */
  function MinLength<T>(lists: seq<seq<T>>): (m: nat)
    requires |lists| >= 1
    ensures forall i :: 0 <= i < |lists| ==> m <= |lists[i]|
    ensures exists i :: 0 <= i < |lists| && m == |lists[i]|
    decreases |lists|
  {
    if |lists| == 1 then |lists[0]|
    else
      var m := MinLength(lists[1..]);
      assert forall i :: 1 <= i < |lists| ==> lists[i] == lists[1..][i - 1];
      if |lists[0]| <= m then |lists[0]| else m
  }

  /** Python's `zip(*lists)`: tuple `k` holds element `k` of every list, and
      there are as many tuples as the shortest list has elements. */
  function Zip<T>(lists: seq<seq<T>>): (r: seq<seq<T>>)
    ensures |lists| == 0 ==> r == []
    ensures |lists| >= 1 ==> |r| == MinLength(lists)
    ensures forall k, i :: 0 <= k < |r| && 0 <= i < |lists| ==> |r[k]| == |lists| && r[k][i] == lists[i][k]
  {
    if |lists| == 0 then []
    else
      var m := MinLength(lists);
      seq(m, k requires 0 <= k < m => seq(|lists|, i requires 0 <= i < |lists| => lists[i][k]))
  }

  /** The elements of all lists in row-major order. */
  function Flatten<T>(lists: seq<seq<T>>): seq<T>
    decreases |lists|
  {
    if |lists| == 0 then [] else lists[0] + Flatten(lists[1..])
  }

  /** Rows of one element each, in order, flatten back to those elements. */
  lemma {:induction false} FlattenSingletons<T>(xs: seq<T>)
    ensures Flatten(seq(|xs|, k requires 0 <= k < |xs| => [xs[k]])) == xs
    decreases |xs|
  {
    if |xs| > 0 {
      var rows := seq(|xs|, k requires 0 <= k < |xs| => [xs[k]]);
      var rest := xs[1..];
      assert rows[1..] == seq(|rest|, k requires 0 <= k < |rest| => [rest[k]]);
      FlattenSingletons(rest);
      assert xs == [xs[0]] + rest;
    }
  }

  /** `np.reshape(lists, (-1, 1))`: one-element rows that hold the same
      elements in the same row-major order. */
  function ReshapeColumn<T>(lists: seq<seq<T>>): (r: seq<seq<T>>)
    ensures forall k :: 0 <= k < |r| ==> |r[k]| == 1
    ensures Flatten(r) == Flatten(lists)
  {
    var flat := Flatten(lists);
    FlattenSingletons(flat);
    seq(|flat|, k requires 0 <= k < |flat| => [flat[k]])
  }

  /** The groups `load_io_files` hands to `lazy_loader`: `zip(*files)` with
      more than one role, the column reshape with one. Either way group `k`
      holds entry `k` of every list, in list order, and there are as many
      groups as the shortest list has entries. */
  function Groups<T>(files: seq<seq<T>>): (r: seq<seq<T>>)
    ensures |files| == 0 ==> r == []
    ensures |files| >= 1 ==> |r| == MinLength(files)
    ensures forall k, i :: 0 <= k < |r| && 0 <= i < |files| ==> |r[k]| == |files| && r[k][i] == files[i][k]
  {
    if |files| > 1 then Zip(files)
    else if |files| == 1 then
      assert Flatten(files) == files[0] + Flatten(files[1..]);
      assert Flatten(files) == files[0];
      ReshapeColumn(files)
    else
      ReshapeColumn(files)
  }

  /** Both branches transpose: for aligned lists, group `k` holds the `k`-th
      entry of every list, in list order. */
  lemma GroupsTranspose<T>(files: seq<seq<T>>, width: nat)
    requires |files| >= 1 && Rectangular(files, width)
    ensures Groups(files) == Zip(files)
    ensures |Groups(files)| == width && Rectangular(Groups(files), |files|)
    ensures forall k, i :: 0 <= k < width && 0 <= i < |files| ==> Groups(files)[k][i] == files[i][k]
  {
    if |files| == 1 {
      var row := files[0];
      assert Flatten(files) == row + Flatten(files[1..]);
      assert Flatten(files) == row;
      var z := Zip(files);
      var c := ReshapeColumn(files);
      assert |z| == |c| == width;
      forall k | 0 <= k < width
        ensures z[k] == c[k]
      {
        assert z[k] == [row[k]];
      }
    }
  }

  /** Zipping aligned, non-empty lists twice gives them back. */
  lemma ZipTwice<T>(files: seq<seq<T>>, width: nat)
    requires |files| >= 1 && width >= 1 && Rectangular(files, width)
    ensures Zip(Zip(files)) == files
  {
    var z := Zip(files);
    assert |z| == width;
    assert |z[0]| == |files|;
    var zz := Zip(z);
    assert |zz| == |files|;
    forall i | 0 <= i < |files|
      ensures zz[i] == files[i]
    {
      assert |zz[i]| == width;
    }
  }

  /** The roles `load_io_files` keeps: those whose name is not excepted, in
      configuration order. */
  function KeptRoles(io: seq<(string, string)>, exception: seq<string>): (kept: seq<(string, string)>)
    ensures forall p :: p in kept <==> p in io && p.0 !in exception
    ensures |kept| <= |io|
    decreases |io|
  {
    if |io| == 0 then []
    else
      var rest := KeptRoles(io[1..], exception);
      assert forall p :: p in io <==> p == io[0] || p in io[1..];
      if io[0].0 in exception then rest else [io[0]] + rest
  }

  /** Filtering keeps configuration order: it distributes over concatenation. */
  lemma {:induction false} KeptRolesAppend(a: seq<(string, string)>, b: seq<(string, string)>, exception: seq<string>)
    ensures KeptRoles(a + b, exception) == KeptRoles(a, exception) + KeptRoles(b, exception)
    decreases |a|
  {
    if |a| > 0 {
      assert (a + b)[1..] == a[1..] + b;
      KeptRolesAppend(a[1..], b, exception);
    } else {
      assert a + b == b;
    }
  }

  /** `l` is the listing of some configured role that is not excepted. */
  predicate ListedFrom(listDir: string -> seq<string>, io: seq<(string, string)>, exception: seq<string>,
                       l: seq<string>)
  {
    exists p :: p in io && p.0 !in exception && l == listDir(p.1)
  }

  /** The directory listings of the kept roles, in configuration order;
      `listDir` stands for the `glob` of every entry of a directory. Listing
      `i` belongs to the `i`-th kept role, and every kept role's listing is
      among them. */
  function RawListings(listDir: string -> seq<string>, io: seq<(string, string)>, exception: seq<string>)
    : (r: seq<seq<string>>)
    ensures |r| == |KeptRoles(io, exception)| <= |io|
    ensures forall i :: 0 <= i < |r| ==> r[i] == listDir(KeptRoles(io, exception)[i].1)
    ensures forall p :: p in io && p.0 !in exception ==> listDir(p.1) in r
  {
    var kept := KeptRoles(io, exception);
    var r := seq(|kept|, i requires 0 <= i < |kept| => listDir(kept[i].1));
    forall p | p in io && p.0 !in exception
      ensures listDir(p.1) in r
    {
      var i :| 0 <= i < |kept| && kept[i] == p;
      assert r[i] == listDir(p.1);
    }
    r
  }

  /** Every raw listing is the listing of a configured role that is not
      excepted. */
  lemma RawListingsFromKeptRoles(listDir: string -> seq<string>, io: seq<(string, string)>, exception: seq<string>)
    ensures forall i :: 0 <= i < |RawListings(listDir, io, exception)| ==>
      ListedFrom(listDir, io, exception, RawListings(listDir, io, exception)[i])
  {
  }

  /** The paths for one common name, one per listing, in listing order. */
  function Group(ex: Extractor, listings: seq<seq<string>>, name: string): seq<string>
    requires Alignable(listings)
  {
    seq(|listings|, i requires 0 <= i < |listings| => RoleEntry(ex, listings[i], name))
  }

  /** `load_io_files(args, exception)`. Alignment errors surface at the call;
      otherwise the result is the lazy stream with one item per common name,
      in the iteration order `order`, and item `k` loads the `k`-th aligned
      path of every kept role, all built from the name `order[k]`. */
  function LoadIoFiles<R>(
    ex: Extractor, decode: (Format, string) -> Result<R, string>, listDir: string -> seq<string>,
    io: seq<(string, string)>, exception: seq<string>, order: seq<string>)
    : (r: Result<seq<Result<seq<R>, LoadError>>, AlignError>)
    requires OrderFits(ex, RawListings(listDir, io, exception), order)
    ensures r.Ok? <==> Alignable(RawListings(listDir, io, exception))
    ensures r == Err(NoListings) <==> |KeptRoles(io, exception)| == 0
    ensures r.Ok? ==> (Alignable(RawListings(listDir, io, exception)) && |r.value| == |order|
      && forall k :: 0 <= k < |order| ==>
           r.value[k] == Loader(FileLoader(ex, decode), Group(ex, RawListings(listDir, io, exception), order[k])))
  {
    var raw := RawListings(listDir, io, exception);
    match AlignFiles(ex, raw, order)
    case Err(e) => Err(e)
    case Ok(files) =>
      GroupsTranspose(files, |order|);
      var groups := Groups(files);
      assert forall k :: 0 <= k < |order| ==> groups[k] == Group(ex, raw, order[k]);
      Ok(LazyLoader(FileLoader(ex, decode), groups))
  }
}
