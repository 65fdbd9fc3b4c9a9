# Benchmark file pairing and task dispatch

A Dafny model of the logic in the DNA point-cloud codec's benchmark harness
(`compression/dna/codec/benchmarks.py`) that is not numerics:

- **`align_files`**: matches the files of N directory listings by base name.
  It infers one directory and one extension per listing from that listing's
  first file. It then rebuilds N parallel path lists, one entry per name
  common to every listing.
- **`load_file`**: picks a decoder from a file's extension.
- **`loader` and `lazy_loader`**: the eager loader maps over a list of paths.
  The generator yields one item per group of paths.
- **`load_io_files`**: drops the excepted roles of the `io` configuration,
  aligns the remaining listings, and turns the aligned lists into per-name
  groups. It uses `zip` with several roles and `np.reshape(-1, 1)` with one.
- **`main`**: checks the requested routine name against an allow-list of six routines and
  invokes the chosen one. `play` is a no-op.
- **Base names in `bypass_dna`**: the base name of a record is its last `/`
  segment, cut at the first `.`. That name gives the path of the `.ply` file
  the routine writes.

Modules:

- `Results` (`results.dfy`): `Result<T, E>`. `Err` stands for a raised
  Python exception.
- `PathNames` (`pathnames.dfy`): Python's one-character `str.split` and its
  inverse `join`, the base name derivation, and the `{path}/{name}.{ext}`
  paths. It also holds the name extractors of `utils`. `utils` is not part of
  this model, so the extractors are a value of type `Extractor` (three
  functions). `Assumed` is the concrete extractor this model assumes: the parent
  directory, the extension after the final dot of the file name, and the file
  name without directory or extension (`Stem`). The two halves agree, so a
  file's stem and extension make up its file name again.
- `Alignment` (`alignment.dfy`): `align_files`. A Python set iterates in an
  order the language leaves unspecified. That order is therefore a parameter:
  any duplicate-free enumeration of the common names (`OrderFits`). Every
  property holds for every such order.
- `Loading` (`loading.dfy`): the extension dispatch, the loaders, `zip`, the
  column reshape, the role filter and `load_io_files`. The decoders and the
  directory listing (`glob`) are function parameters.
- `Tasks` (`tasks.dfy`): the allow-list of `main` and the trace of one run.
  The bodies of the routines other than `play` are a parameter. Also the
  output path of `bypass_dna`.

## Model

| member | source | states |
|---|---|---|
| `PathNames.Split` | compression/dna/codec/benchmarks.py:104 | `str.split` gives at least one piece and no piece contains the separator; joining the pieces with the separator gives the input back |
| `PathNames.SplitJoin` | compression/dna/codec/benchmarks.py:104 | splitting the join of separator-free pieces gives those pieces back, so split and join are inverses |
| `PathNames.LastPiece` | compression/dna/codec/benchmarks.py:104 | `split(c)[-1]` never contains `c`, and is the whole string when `c` does not occur |
| `PathNames.BeforeFirst` | compression/dna/codec/benchmarks.py:104 | `split(c)[0]` is a `c`-free prefix of the string, followed by `c` whenever `c` occurs |
| `PathNames.BaseName` | compression/dna/codec/benchmarks.py:104 | the derived name never contains `/` or `.`; it is the last path segment when that has no `.`, and otherwise the part of it before its first `.` |
| `PathNames.BaseNameOfJoinPath` | compression/dna/codec/benchmarks.py:43 | a path rebuilt from a plain name has that name as its base name |
| `PathNames.JoinPathInjective` | compression/dna/codec/benchmarks.py:43 | under one directory and extension, different names give different rebuilt paths |
| `PathNames.Parent` | compression/dna/codec/benchmarks.py:38 | the parent directory, a `/` and the last segment make up the path; without a `/` the parent is empty |
| `PathNames.ExtensionOf` | compression/dna/codec/benchmarks.py:39 | the assumed extension holds no `/` or `.`, and is empty when the file name has no `.` |
| `PathNames.Stem` | compression/dna/codec/benchmarks.py:40 | the assumed file name without directory or extension holds no `/`; followed by a `.` and the extension it gives the file name back, and it is the whole file name when that has no `.` |
| `PathNames.JoinPath` | compression/dna/codec/benchmarks.py:43 | a path built from a directory, a name without `/` and a plain extension has exactly that parent, stem and extension, so the assumed extractors recover what it was built from |
| `PathNames.JoinPathOfParts` | compression/dna/codec/benchmarks.py:38-43 | every path with a directory and an extension is rebuilt from its own parent, stem and extension |
| `Alignment.EnumerationSize` | compression/dna/codec/benchmarks.py:43 | iterating a set visits as many names as the set holds |
| `Alignment.Common` | compression/dna/codec/benchmarks.py:40-41 | a name is in the intersection of the name sets exactly when some file of every listing has it |
| `Alignment.AlignFiles` | compression/dna/codec/benchmarks.py:32-43 | fails with the assertion exactly when some listing is empty, and with the intersection error exactly when there are no listings. Otherwise it returns one list per listing, in input order. Each list has one entry per common name, and entry `k` of list `i` is built from listing `i`'s first file and the `k`-th common name |
| `Alignment.AlignedDistinct` | compression/dna/codec/benchmarks.py:40-43 | no output list holds a path twice |
| `Alignment.AlignedMembership` | compression/dna/codec/benchmarks.py:40-43 | a name's rebuilt path is in output list `i` exactly when the name is found in every listing; a name missing from one listing appears in no output |
| `Alignment.AlignedNamesOccurEverywhere` | compression/dna/codec/benchmarks.py:40-43 | every name used at position `k` is the base name of some file in every input listing |
| `Alignment.AlignedNamesAgree` | compression/dna/codec/benchmarks.py:38-43 | under the hypothesis that the name extractor recovers the names it is given, the entries at position `k` of all output lists share one base name, and that name is common to all listings |
| `Alignment.AssumedNamesAgree` | compression/dna/codec/benchmarks.py:38-43 | with the assumed extractors, entry `k` of every output list has the `k`-th common name as its name, so the entries at one position share one name, without any hypothesis |
| `Alignment.OrderIndependent` | compression/dna/codec/benchmarks.py:41-43 | whichever iteration order of the common names is used, the output has the same shape: every output list has the same length and holds the same paths, only at other positions |
| `Alignment.ScenarioCommon` | compression/dna/codec/benchmarks.py:40-41 | with names `a, b, c` in one directory and `a, b` in two others, the common names are `a` and `b` |
| `Alignment.ScenarioOrders` | compression/dna/codec/benchmarks.py:41-43 | in that layout the common names are iterated as `a, b` or as `b, a` |
| `Alignment.AlignThreeListings` | compression/dna/codec/benchmarks.py:38-43 | three listings of plain names under one extension align to the paths of the common names under each listing's own directory |
| `Alignment.ThreeDirectoryScenario` | compression/dna/codec/benchmarks.py:32-43 | in the three-directory layout, alignment drops `c` and gives three lists of two paths each, in one shared order |
| `Alignment.AlignIdempotent` | compression/dna/codec/benchmarks.py:32-43 | with the assumed extractors, aligning the output again in the same order gives the same output |
| `Loading.ChooseFormat` | compression/dna/codec/benchmarks.py:49-57 | as intended: exactly `npy`, `pkl` and `ply` are accepted, each selects its own decoder, and anything else is an unknown-extension error |
| `Loading.FormatExtension` | compression/dna/codec/benchmarks.py:50-55 | every decoder has an accepted extension that selects it |
| `Loading.DispatchAsWritten` | compression/dna/codec/benchmarks.py:49-57 | as written: only `npy` and `ply` succeed, and `pkl` raises a `NameError` for `pickle` |
| `Loading.PickleBranchFails` | compression/dna/codec/benchmarks.py:52-53 | as written, `pkl` fails even though the intended table accepts it |
| `Loading.LoadFile` | compression/dna/codec/benchmarks.py:45-57 | with the intended table: an unknown extension fails with an error naming it, before any decoder runs; for an accepted extension the file loads exactly when the decoder that extension selects succeeds on it, with that decoder's value, and otherwise fails with the decoder's error |
| `Loading.Sequence` | compression/dna/codec/benchmarks.py:70 | a comprehension whose elements may raise succeeds exactly when every element does, with the values in order; otherwise it raises the first failure |
| `Loading.Loader` | compression/dna/codec/benchmarks.py:66-70 | one result per path, in path order, element `i` being the load of path `i`; or the first path's failure |
| `Loading.LazyLoader` | compression/dna/codec/benchmarks.py:59-64 | the generator yields one item per group |
| `Loading.LazyIsLocal` | compression/dna/codec/benchmarks.py:59-64 | the first `m` items depend only on the first `m` groups, and each item only on its own group |
| `Loading.LazyMatchesEager` | compression/dna/codec/benchmarks.py:59-70 | consuming every lazy item succeeds exactly when every file loads; then, for every role, it gives the same records as the eager loader over that role's files |
| `Loading.MinLength` | compression/dna/codec/benchmarks.py:78 | the length of one of the lists, and no longer than any of them |
| `Loading.Zip` | compression/dna/codec/benchmarks.py:78 | `zip(*lists)` produces as many tuples as the shortest list has entries, and tuple `k` holds entry `k` of every list, in list order |
| `Loading.ReshapeColumn` | compression/dna/codec/benchmarks.py:78 | `reshape(-1, 1)` gives one-element rows that hold the same entries in the same row-major order |
| `Loading.Groups` | compression/dna/codec/benchmarks.py:78 | whichever branch is taken, there are as many groups as the shortest list has entries, and group `k` holds entry `k` of every list, in list order |
| `Loading.GroupsTranspose` | compression/dna/codec/benchmarks.py:78 | the `zip` branch and the `reshape(-1, 1)` branch agree, and group `k` holds the `k`-th entry of every list, in list order |
| `Loading.ZipTwice` | compression/dna/codec/benchmarks.py:78 | zipping aligned non-empty lists twice gives them back |
| `Loading.KeptRoles` | compression/dna/codec/benchmarks.py:76 | a role is kept exactly when it is configured and its name is not excepted |
| `Loading.RawListings` | compression/dna/codec/benchmarks.py:76 | one listing per kept role, in configuration order: listing `i` is the directory listing of the `i`-th kept role, and every kept role's listing is among them |
| `Loading.RawListingsFromKeptRoles` | compression/dna/codec/benchmarks.py:76 | every raw listing is the directory listing of a configured role whose name is not excepted |
| `Loading.KeptRolesAppend` | compression/dna/codec/benchmarks.py:76 | filtering distributes over concatenation, so kept roles stay in configuration order |
| `Loading.LoadIoFiles` | compression/dna/codec/benchmarks.py:72-78 | succeeds exactly when the kept listings are alignable, and fails for lack of listings exactly when every role is excepted. Otherwise it yields one item per common name, and item `k` loads the paths built from the `k`-th name, one per kept role, in role order |
| `Tasks.TaskName` | compression/dna/codec/benchmarks.py:193 | every routine's name is on the allow-list |
| `Tasks.ParseTask` | compression/dna/codec/benchmarks.py:193-195 | a name is accepted exactly when it is on the allow-list, and then it names the routine chosen; otherwise the error carries the name and the list |
| `Tasks.ParseTaskName` | compression/dna/codec/benchmarks.py:193 | names and routines correspond one to one: the list holds six different names, and each routine's name parses back to it |
| `Tasks.Main` | compression/dna/codec/benchmarks.py:193-197 | a name off the list is rejected before anything is invoked. Otherwise exactly one routine, the one named, is invoked, followed by exactly its actions. Running `play` (lines 82-86) records nothing beyond its invocation |
| `Tasks.BypassOutputPath` | compression/dna/codec/benchmarks.py:104-110 | the file written for a record keeps the record's base name, lies in `./bypass_dna/x_hat`, and its extension selects the point-cloud decoder |

## Left out

- `extract_path`, `extract_ext` and `extract_name` come from `utils`, which is not part of this model. The aligner and the loader take them as an `Extractor` value. Properties that need their behaviour are stated for `PathNames.Assumed`, an assumed extractor. Its treatment of file names that start with a `.` (split at that dot) and of paths without a `/` is a choice of this model, not a known behaviour of `utils`.
- Alignment.AlignedNamesAgree: for an arbitrary extractor, the name round trip (`extract_name` of a rebuilt path gives the name back) is a hypothesis of the lemma. `Alignment.AssumedNamesAgree` proves it for the assumed extractors.
- Directory listing by `glob` is the parameter `listDir` of `Loading.LoadIoFiles`. Ordering and hidden-file behaviour of `glob` are not modelled.
- The iteration order of a Python set is the parameter `order`. Only what holds for every duplicate-free enumeration is claimed.
- Decoding (`np.load`, `pickle.load`, `PyntCloud.from_file(...).points`) is the parameter `decode`, which returns a value or a failure. Which files a decoder fails on is not modelled. One such case is a path that `align_files` rebuilt with the first file's extension but that is not on disk, for example `d/b.npy` from the listing `d/a.npy`, `d/b.pkl`.
- Loading.LoadFile: uses the intended decoder table, where `pkl` is accepted; the code as written raises `NameError` there, which `Loading.DispatchAsWritten` models (see Findings).
- Loading.LazyLoader: `np.squeeze` in `lazy_loader` is not modelled; an item is the list of its group's records. The generator's single-pass laziness appears only as locality (`Loading.LazyIsLocal`). Its contract gives the number of items; their contents are stated by `Loading.LazyIsLocal` and `Loading.LazyMatchesEager`.
- The `args` parameter of `loader` and `lazy_loader` is unused there and is omitted.
- Tasks.Main: the routines other than `play` are a parameter `routines` giving their actions. Their bodies are TensorFlow, the JpegDNA codec, floating-point statistics and plotting, and are not modelled. This covers `bypass_dna`'s model transforms and `write_df`, `quantization_tables`, `quantization`, and the statistics and histograms of `evaluate_y_reconstruction` and `study_output_analysis`. The tuple unpacking those two do on the groups is not modelled either, nor are their `global` scratch variables.
- Hydra and OmegaConf configuration loading and `tqdm` are not modelled. The configured `io` mapping is an ordered list of (role, directory) pairs.

## Findings

| source | as written | input that shows it | evidently intended | confidence | as-written member | corrected member |
|---|---|---|---|---|---|---|
| compression/dna/codec/benchmarks.py:53 | the `pkl` branch calls `pickle.load`, but the module never imports `pickle` (lines 9-29), so the branch raises `NameError` (see `Loading.PickleBranchFails`) | `load_file("out/y.pkl")` | a `pkl` file is read with the object deserializer | not executed | `Loading.DispatchAsWritten` | `Loading.ChooseFormat` |
