/**
 * `scan_directory`: a top-down `os.walk` over a directory tree that prunes
 * hidden, `venv` and `node_modules` subdirectories before descending and
 * yields `join(root, file)` for every file with a source extension.
 */
module Scanner {
  import opened Strings
  import opened Seqs
  import opened Paths

  /** A directory as `os.walk` sees it: its name, its file names and its subdirectories, in listing order. */
  datatype Dir = Dir(name: string, files: seq<string>, subdirs: seq<Dir>)

  const SupportedExtensions: set<string> := {".py", ".js", ".ts", ".jsx", ".tsx"}

  /** A subdirectory the walk does not descend into. */
  predicate Pruned(name: string) {
    StartsWith(name, ".") || name == "venv" || name == "node_modules"
  }

  /** The condition of the comprehension assigned to `dirs[:]`. */
  predicate Kept(d: Dir) {
    !Pruned(d.name)
  }

  predicate Supported(file: string) {
    Ext(file) in SupportedExtensions
  }

  /** `os.path.join(root, file)` for the files of the walk's current `root`. */
  function Under(root: string): string -> string {
    file => JoinPath(root, file)
  }

  /** The paths yielded for one directory's own files, from the walk's `root`. */
  function SupportedPaths(root: string, files: seq<string>): seq<string> {
    FilterMap(files, Supported, Under(root))
  }

  /** Everything yielded from the directory `d` reached as `root`: its own files, then each kept subdirectory in turn. */
  function Scan(root: string, d: Dir): seq<string>
    decreases d, 1
  {
    SupportedPaths(root, d.files) + ScanSubdirs(root, d.subdirs)
  }

  function ScanSubdirs(root: string, ds: seq<Dir>): seq<string>
    decreases ds, 0
  {
    if ds == [] then []
    else (if Kept(ds[0]) then Scan(JoinPath(root, ds[0].name), ds[0]) else []) + ScanSubdirs(root, ds[1..])
  }

  lemma {:induction false} ScanSubdirsConcat(root: string, a: seq<Dir>, b: seq<Dir>)
    ensures ScanSubdirs(root, a + b) == ScanSubdirs(root, a) + ScanSubdirs(root, b)
  {
    if a == [] {
      assert a + b == b;
    } else {
      assert (a + b)[0] == a[0];
      assert (a + b)[1..] == a[1..] + b;
      ScanSubdirsConcat(root, a[1..], b);
    }
  }

  lemma ScanSubdirsPrefix(root: string, ds: seq<Dir>, j: nat)
    requires j < |ds|
    ensures ScanSubdirs(root, ds[..j + 1])
      == ScanSubdirs(root, ds[..j]) + (if Kept(ds[j]) then Scan(JoinPath(root, ds[j].name), ds[j]) else [])
  {
    assert ds[..j + 1] == ds[..j] + [ds[j]];
    ScanSubdirsConcat(root, ds[..j], [ds[j]]);
    assert [ds[j]][1..] == [];
  }

  /** Dropping the pruned entries from `dirs` changes nothing the walk yields below this directory. */
  lemma {:induction false} ScanSubdirsFiltered(root: string, ds: seq<Dir>)
    ensures ScanSubdirs(root, Filter(ds, Kept)) == ScanSubdirs(root, ds)
  {
    if ds != [] {
      ScanSubdirsFiltered(root, ds[1..]);
      var head := if Kept(ds[0]) then [ds[0]] else [];
      assert Filter(ds, Kept) == head + Filter(ds[1..], Kept);
      ScanSubdirsConcat(root, head, Filter(ds[1..], Kept));
      if Kept(ds[0]) {
        assert head[1..] == [];
      }
    }
  }

  /** The inner loop of `scan_directory` over the files `os.walk` lists for `root`. */
  method YieldFiles(root: string, files: seq<string>) returns (out: seq<string>)
    ensures out == SupportedPaths(root, files)
  {
    out := [];
    for i := 0 to |files|
      invariant out == FilterMap(files[..i], Supported, Under(root))
    {
      assert files[..i + 1][..i] == files[..i];
      var file := files[i];
      var ext := Ext(file);
      if ext in SupportedExtensions {
        assert Under(root)(file) == JoinPath(root, file);
        out := out + [JoinPath(root, file)];
      }
    }
    assert files[..|files|] == files;
  }

  /** One step of `os.walk` below `root`: the directory's own files are handled before any subdirectory. */
  method Walk(root: string, d: Dir) returns (out: seq<string>)
    decreases d, 1
    ensures out == Scan(root, d)
  {
    var dirs := Filter(d.subdirs, Kept);
    var own := YieldFiles(root, d.files);
    var below := WalkSubdirs(root, d, dirs);
    ScanSubdirsFiltered(root, d.subdirs);
    out := own + below;
  }

  /** The walk's descent into the subdirectories left in `dirs` after pruning, in order. */
  method WalkSubdirs(root: string, d: Dir, dirs: seq<Dir>) returns (out: seq<string>)
    requires dirs == Filter(d.subdirs, Kept)
    decreases d, 0
    ensures out == ScanSubdirs(root, dirs)
  {
    out := [];
    for j := 0 to |dirs|
      invariant out == ScanSubdirs(root, dirs[..j])
    {
      var sub := dirs[j];
      assert sub in d.subdirs && Kept(sub);
      ScanSubdirsPrefix(root, dirs, j);
      var below := Walk(JoinPath(root, sub.name), sub);
      out := out + below;
    }
    assert dirs[..|dirs|] == dirs;
  }

  /** `scan_directory(root_path)`: the top directory itself is never pruned, whatever its name. */
  method ScanDirectory(rootPath: string, tree: Dir) returns (paths: seq<string>)
    ensures paths == Scan(rootPath, tree)
  {
    paths := Walk(rootPath, tree);
  }

  /** Every file name in the tree is a single path component, as `os.walk` lists them. */
  ghost predicate WellNamed(d: Dir)
    decreases d
  {
    (forall k :: 0 <= k < |d.files| ==> d.files[k] != [] && forall j :: 0 <= j < |d.files[k]| ==> d.files[k][j] != '/')
    && forall i :: 0 <= i < |d.subdirs| ==> WellNamed(d.subdirs[i])
  }

  lemma SupportedPathsMember(root: string, files: seq<string>, p: string)
    ensures p in SupportedPaths(root, files) <==> exists k :: 0 <= k < |files| && Supported(files[k]) && p == JoinPath(root, files[k])
  {
    FilterMapMember(files, Supported, Under(root), p);
  }

  /** Every yielded path ends in one of the supported extensions; in particular `.java` files are never yielded. */
  lemma {:induction false} ScanYieldsSupported(root: string, d: Dir)
    requires WellNamed(d)
    decreases d, 1
    ensures forall p :: p in Scan(root, d) ==> Ext(p) in SupportedExtensions && Ext(p) != ".java"
  {
    forall p | p in SupportedPaths(root, d.files) ensures Ext(p) in SupportedExtensions {
      SupportedPathsMember(root, d.files, p);
      var k :| 0 <= k < |d.files| && Supported(d.files[k]) && p == JoinPath(root, d.files[k]);
      ExtOfJoin(root, d.files[k]);
    }
    ScanSubdirsYieldSupported(root, d.subdirs);
  }

  lemma {:induction false} ScanSubdirsYieldSupported(root: string, ds: seq<Dir>)
    requires forall i :: 0 <= i < |ds| ==> WellNamed(ds[i])
    decreases ds, 0
    ensures forall p :: p in ScanSubdirs(root, ds) ==> Ext(p) in SupportedExtensions
  {
    if ds != [] {
      ScanYieldsSupported(JoinPath(root, ds[0].name), ds[0]);
      ScanSubdirsYieldSupported(root, ds[1..]);
    }
  }

  /**
   * What the walk yields, characterised: a supported file directly in the
   * directory, or something yielded from a subdirectory that is not pruned.
   */
  lemma ScanMember(root: string, d: Dir, p: string)
    ensures p in Scan(root, d) <==>
      (exists k :: 0 <= k < |d.files| && Supported(d.files[k]) && p == JoinPath(root, d.files[k]))
      || (exists i :: 0 <= i < |d.subdirs| && !Pruned(d.subdirs[i].name)
            && p in Scan(JoinPath(root, d.subdirs[i].name), d.subdirs[i]))
  {
    SupportedPathsMember(root, d.files, p);
    ScanSubdirsMember(root, d.subdirs, p);
  }

  lemma {:induction false} ScanSubdirsMember(root: string, ds: seq<Dir>, p: string)
    ensures p in ScanSubdirs(root, ds) <==>
      exists i :: 0 <= i < |ds| && !Pruned(ds[i].name) && p in Scan(JoinPath(root, ds[i].name), ds[i])
  {
    if ds != [] {
      ScanSubdirsMember(root, ds[1..], p);
      if exists i :: 0 <= i < |ds| && !Pruned(ds[i].name) && p in Scan(JoinPath(root, ds[i].name), ds[i]) {
        var i :| 0 <= i < |ds| && !Pruned(ds[i].name) && p in Scan(JoinPath(root, ds[i].name), ds[i]);
        if i > 0 {
          assert ds[1..][i - 1] == ds[i];
        }
      }
      if exists i :: 0 <= i < |ds[1..]| && !Pruned(ds[1..][i].name) && p in Scan(JoinPath(root, ds[1..][i].name), ds[1..][i]) {
        var i :| 0 <= i < |ds[1..]| && !Pruned(ds[1..][i].name) && p in Scan(JoinPath(root, ds[1..][i].name), ds[1..][i]);
        assert ds[i + 1] == ds[1..][i];
      }
    }
  }

  /** Nothing beneath a pruned subdirectory is yielded: the walk is as if it were absent. */
  lemma PrunedSubtreeIgnored(root: string, name: string, files: seq<string>, before: seq<Dir>, sub: Dir, after: seq<Dir>)
    requires Pruned(sub.name)
    ensures Scan(root, Dir(name, files, before + [sub] + after)) == Scan(root, Dir(name, files, before + after))
  {
    assert ScanSubdirs(root, [sub]) == [] by {
      assert [sub][1..] == [];
    }
    ScanSubdirsConcat(root, before + [sub], after);
    ScanSubdirsConcat(root, before, [sub]);
    ScanSubdirsConcat(root, before, after);
    assert ScanSubdirs(root, before + [sub] + after) == ScanSubdirs(root, before + after);
  }

  /**
   * Pruning applies to subdirectories only: a supported file directly under
   * the scanned directory is yielded even when that directory is hidden.
   */
  lemma RootFilesIncluded(root: string, d: Dir, k: nat)
    requires k < |d.files| && Supported(d.files[k])
    ensures JoinPath(root, d.files[k]) in Scan(root, d.(name := ".hidden"))
    ensures JoinPath(root, d.files[k]) in Scan(root, d)
  {
    SupportedPathsMember(root, d.files, JoinPath(root, d.files[k]));
  }

  /** The number of supported files directly in kept directories of the tree. */
  function KeptFileCount(d: Dir): nat
    decreases d, 1
  {
    |Filter(d.files, Supported)| + KeptFileCountSeq(d.subdirs)
  }

  function KeptFileCountSeq(ds: seq<Dir>): nat
    decreases ds, 0
  {
    if ds == [] then 0 else (if Kept(ds[0]) then KeptFileCount(ds[0]) else 0) + KeptFileCountSeq(ds[1..])
  }

  /** Each supported file of a kept directory is visited once: one yielded path per such file. */
  lemma {:induction false} ScanCount(root: string, d: Dir)
    decreases d, 1
    ensures |Scan(root, d)| == KeptFileCount(d)
  {
    FilterMapLength(d.files, Supported, Under(root));
    ScanSubdirsCount(root, d.subdirs);
  }

  lemma {:induction false} ScanSubdirsCount(root: string, ds: seq<Dir>)
    decreases ds, 0
    ensures |ScanSubdirs(root, ds)| == KeptFileCountSeq(ds)
  {
    if ds != [] {
      if Kept(ds[0]) {
        ScanCount(JoinPath(root, ds[0].name), ds[0]);
      }
      ScanSubdirsCount(root, ds[1..]);
    }
  }
}
