/**
 * `DataProcessor`: turns a directory of scraped `.txt` files into
 * code–docstring pairs, splits them by file into train, validation and test
 * sets, and adds renamed copies of the Python training pairs.
 *
 * The file system, the parsers, `ast.unparse` and the random permutation of
 * `train_test_split` are parameters: `read` gives a file's text (None when it
 * cannot be opened or decoded), `pyParse` / `javaParse` give the parse tree
 * (None when parsing raises), and `permutation(n)` is the permutation of
 * `0..n-1` that the seeded generator draws for `n` items.
 */
module DataProcessor {
  import opened Wrappers
  import opened Strings
  import opened Seqs
  import opened Paths
  import opened PyAst
  import opened JavaAst
  import opened Renamer

  /** One entry of a dataset; `augmented` is the key only renamed copies carry. */
  datatype Pair = Pair(
    language: string,
    filePath: string,
    name: string,
    code: string,
    docstring: string,
    metadata: string,
    augmented: bool)

  /** `(language, code, repo_info)` of a scraped file. */
  datatype Scraped = Scraped(language: string, code: string, header: string)

  // ---------------------------------------------------------------------------
  // `_get_files`

  predicate Kept(p: string) {
    !Excluded(p)
  }

  /** The `.txt` files the recursive glob found, less those under a virtual environment or cache. */
  function GetFiles(found: seq<string>): (r: seq<string>)
    ensures forall k :: 0 <= k < |r| ==> r[k] in found && !Excluded(r[k])
    ensures forall k :: 0 <= k < |found| && !Excluded(found[k]) ==> found[k] in r
  {
    Filter(found, Kept)
  }

  // ---------------------------------------------------------------------------
  // `_parse_scraped_file`

  const LanguageTag: string := "Language: "

  /** `line.replace("Language: ", "").strip().lower()`. */
  function CleanLanguage(line: string): string {
    Lower(Strip(ReplaceAll(line, LanguageTag, "")))
  }

  /** The language a header's lines declare: the last `Language: ` line wins, "" if there is none. */
  function LanguageOf(lines: seq<string>): string {
    if lines == [] then ""
    else if StartsWith(lines[|lines| - 1], LanguageTag) then CleanLanguage(lines[|lines| - 1])
    else LanguageOf(lines[..|lines| - 1])
  }

  lemma {:induction false} LanguageOfUntagged(lines: seq<string>)
    requires forall k :: 0 <= k < |lines| ==> !StartsWith(lines[k], LanguageTag)
    ensures LanguageOf(lines) == ""
  {
    if lines != [] {
      LanguageOfUntagged(lines[..|lines| - 1]);
    }
  }

  lemma {:induction false} LanguageOfLastTag(lines: seq<string>, i: nat)
    requires i < |lines| && StartsWith(lines[i], LanguageTag)
    requires forall j :: i < j < |lines| ==> !StartsWith(lines[j], LanguageTag)
    ensures LanguageOf(lines) == CleanLanguage(lines[i])
  {
    if i < |lines| - 1 {
      LanguageOfLastTag(lines[..|lines| - 1], i);
    }
  }

  /** The header is the text before the first blank line (`"\n\n"`), the code everything after it. */
  function ScrapedFields(content: Option<string>): Scraped {
    if content.None? then Scraped("", "", "")
    else
      var c := content.value;
      var at := Find(c, "\n\n");
      if at.None? then Scraped("", "", "")
      else Scraped(LanguageOf(SplitLines(c[..at.value])), c[at.value + 2..], c[..at.value])
  }

  /**
   * The split is undone by joining with "\n\n", and it happens at the first
   * blank line; a file without one, or one that cannot be read, gives three
   * empty fields.
   */
  lemma ScrapedFieldsSplit(content: Option<string>)
    ensures content.None? || !Contains(content.value, "\n\n") ==> ScrapedFields(content) == Scraped("", "", "")
    ensures content.Some? && Contains(content.value, "\n\n") ==>
      var s := ScrapedFields(content);
      s.header + "\n\n" + s.code == content.value
      && (forall j :: 0 <= j < |s.header| ==> !OccursAt(content.value, "\n\n", j))
  {
    if content.Some? && Contains(content.value, "\n\n") {
      var c := content.value;
      var at := Find(c, "\n\n").value;
      assert c[at..at + 2] == "\n\n";
      assert c == c[..at] + c[at..at + 2] + c[at + 2..];
    }
  }

  method ParseScrapedFile(content: Option<string>) returns (r: Scraped)
    ensures r == ScrapedFields(content)
  {
    if content.None? {
      return Scraped("", "", "");
    }
    var c := content.value;
    var at := Find(c, "\n\n");
    if at.None? {
      return Scraped("", "", "");
    }
    var header := c[..at.value];
    var code := c[at.value + 2..];
    var language := DeclaredLanguage(SplitLines(header));
    r := Scraped(language, code, header);
  }

  /** The loop of `_parse_scraped_file` over the header lines. */
  method DeclaredLanguage(lines: seq<string>) returns (language: string)
    ensures language == LanguageOf(lines)
  {
    language := "";
    for i := 0 to |lines|
      invariant language == LanguageOf(lines[..i])
    {
      assert lines[..i + 1][..i] == lines[..i];
      if StartsWith(lines[i], LanguageTag) {
        language := CleanLanguage(lines[i]);
      }
    }
    assert lines[..|lines|] == lines;
  }

  // ---------------------------------------------------------------------------
  // `_extract_python`

  /** A Python slice bound, made non-negative and at most `n`. */
  function Clamp(i: int, n: nat): (r: nat)
    ensures r <= n
    ensures 0 <= i <= n ==> r == i
  {
    if i < 0 then (if i + n < 0 then 0 else i + n)
    else if i > n then n
    else i
  }

  /** Python's `s[i:j]`. */
  function PySlice<T>(s: seq<T>, i: int, j: int): (r: seq<T>)
    ensures |r| <= |s|
    ensures 0 <= i <= j <= |s| ==> r == s[i..j]
  {
    var lo, hi := Clamp(i, |s|), Clamp(j, |s|);
    if lo < hi then s[lo..hi] else []
  }

  /** The pair of a documented function: its lines `lineno..end_lineno` of the source, joined. */
  function PythonPair(path: string, header: string, lines: seq<string>, n: Node): Pair
    requires IsFunction(n)
  {
    Pair("python", path, n.kind.name, Join("\n", PySlice(lines, n.kind.lineno - 1, n.kind.endLineno)),
         n.kind.docstring, header, false)
  }

  /** The pairs the extraction loop appends for `nodes`, in order. */
  function PythonPairsOf(path: string, header: string, lines: seq<string>, nodes: seq<Node>): (r: seq<Pair>)
    ensures |r| <= |nodes|
    ensures forall k :: 0 <= k < |r| ==>
      r[k].language == "python" && r[k].filePath == path && r[k].metadata == header
      && r[k].docstring != "" && !r[k].augmented
  {
    if nodes == [] then []
    else
      var last := nodes[|nodes| - 1];
      PythonPairsOf(path, header, lines, nodes[..|nodes| - 1])
      + (if IsDocumented(last) then [PythonPair(path, header, lines, last)] else [])
  }

  /** One pair per documented function and no other: the pairs are exactly those of the documented nodes. */
  lemma {:induction false} PythonPairsOfDocumented(path: string, header: string, lines: seq<string>, nodes: seq<Node>)
    ensures forall i :: 0 <= i < |nodes| && IsDocumented(nodes[i]) ==>
      PythonPair(path, header, lines, nodes[i]) in PythonPairsOf(path, header, lines, nodes)
    ensures forall p :: p in PythonPairsOf(path, header, lines, nodes) ==>
      exists i :: 0 <= i < |nodes| && IsDocumented(nodes[i]) && p == PythonPair(path, header, lines, nodes[i])
  {
    if nodes != [] {
      var init := nodes[..|nodes| - 1];
      PythonPairsOfDocumented(path, header, lines, init);
      forall p | p in PythonPairsOf(path, header, lines, nodes)
        ensures exists i :: 0 <= i < |nodes| && IsDocumented(nodes[i]) && p == PythonPair(path, header, lines, nodes[i])
      {
        if p in PythonPairsOf(path, header, lines, init) {
          var i :| 0 <= i < |init| && IsDocumented(init[i]) && p == PythonPair(path, header, lines, init[i]);
          assert nodes[i] == init[i];
        }
      }
      forall i | 0 <= i < |nodes| && IsDocumented(nodes[i])
        ensures PythonPair(path, header, lines, nodes[i]) in PythonPairsOf(path, header, lines, nodes)
      {
        if i < |init| {
          assert nodes[i] == init[i];
        }
      }
    }
  }

  /**
   * The code of a pair spans exactly the function's lines: splitting it again
   * gives lines `lineno..end_lineno` of the source, when the last is not empty.
   */
  lemma ExtractedCodeLines(source: string, lineno: int, endLineno: int)
    requires 1 <= lineno <= endLineno <= |SplitLines(source)|
    requires SplitLines(source)[endLineno - 1] != []
    ensures SplitLines(Join("\n", PySlice(SplitLines(source), lineno - 1, endLineno)))
         == SplitLines(source)[lineno - 1..endLineno]
  {
    var lines := SplitLines(source);
    var part := lines[lineno - 1..endLineno];
    assert part[|part| - 1] == lines[endLineno - 1];
    SplitLinesOfJoin(part);
  }

  /** What `_extract_python` returns for the file `path` whose text is `content`. */
  function PythonPairs(path: string, content: Option<string>, parse: string -> Option<Node>): seq<Pair> {
    var s := ScrapedFields(content);
    if s.language != "python" || s.code == "" then []
    else
      match parse(s.code)
      case None => []
      case Some(tree) => PythonPairsOf(path, s.header, SplitLines(s.code), Walk(tree))
  }

  method ExtractPython(path: string, content: Option<string>, parse: string -> Option<Node>) returns (pairs: seq<Pair>)
    ensures pairs == PythonPairs(path, content, parse)
  {
    var scraped := ParseScrapedFile(content);
    if scraped.language != "python" || scraped.code == "" {
      return [];
    }
    var tree := parse(scraped.code);
    if tree.None? {
      return [];
    }
    var lines := SplitLines(scraped.code);
    var walk := Walk(tree.value);
    pairs := [];
    for i := 0 to |walk|
      invariant pairs == PythonPairsOf(path, scraped.header, lines, walk[..i])
    {
      assert walk[..i + 1][..i] == walk[..i];
      var node := walk[i];
      if IsFunction(node) && node.kind.docstring != "" {
        var code := Join("\n", PySlice(lines, node.kind.lineno - 1, node.kind.endLineno));
        pairs := pairs + [Pair("python", path, node.kind.name, code, node.kind.docstring, scraped.header, false)];
      }
    }
    assert walk[..|walk|] == walk;
  }

  // ---------------------------------------------------------------------------
  // `_extract_java`

  /** The pair of a documented method; its code is only a placeholder comment naming it. */
  function JavaPair(path: string, header: string, m: MethodDeclaration): Pair {
    Pair("java", path, m.name, "// Code for " + m.name, m.documentation, header, false)
  }

  function JavaPairsOf(path: string, header: string, methods: seq<MethodDeclaration>): (r: seq<Pair>)
    ensures |r| <= |methods|
    ensures forall k :: 0 <= k < |r| ==>
      r[k].language == "java" && r[k].filePath == path && r[k].metadata == header
      && r[k].docstring != "" && !r[k].augmented
  {
    if methods == [] then []
    else
      var last := methods[|methods| - 1];
      JavaPairsOf(path, header, methods[..|methods| - 1])
      + (if last.documentation != "" then [JavaPair(path, header, last)] else [])
  }

  /** One pair per documented method declaration and no other. */
  lemma {:induction false} JavaPairsOfDocumented(path: string, header: string, methods: seq<MethodDeclaration>)
    ensures forall i :: 0 <= i < |methods| && methods[i].documentation != "" ==>
      JavaPair(path, header, methods[i]) in JavaPairsOf(path, header, methods)
    ensures forall p :: p in JavaPairsOf(path, header, methods) ==>
      exists i :: 0 <= i < |methods| && methods[i].documentation != "" && p == JavaPair(path, header, methods[i])
  {
    if methods != [] {
      var init := methods[..|methods| - 1];
      JavaPairsOfDocumented(path, header, init);
      forall p | p in JavaPairsOf(path, header, methods)
        ensures exists i :: 0 <= i < |methods| && methods[i].documentation != "" && p == JavaPair(path, header, methods[i])
      {
        if p in JavaPairsOf(path, header, init) {
          var i :| 0 <= i < |init| && init[i].documentation != "" && p == JavaPair(path, header, init[i]);
          assert methods[i] == init[i];
        }
      }
      forall i | 0 <= i < |methods| && methods[i].documentation != ""
        ensures JavaPair(path, header, methods[i]) in JavaPairsOf(path, header, methods)
      {
        if i < |init| {
          assert methods[i] == init[i];
        }
      }
    }
  }

  /** What `_extract_java` returns for the file `path` whose text is `content`. */
  function JavaPairs(path: string, content: Option<string>, parse: string -> Option<seq<MethodDeclaration>>): seq<Pair> {
    var s := ScrapedFields(content);
    if s.language != "java" || s.code == "" then []
    else
      match parse(s.code)
      case None => []
      case Some(methods) => JavaPairsOf(path, s.header, methods)
  }

  method ExtractJava(path: string, content: Option<string>, parse: string -> Option<seq<MethodDeclaration>>)
    returns (pairs: seq<Pair>)
    ensures pairs == JavaPairs(path, content, parse)
  {
    var scraped := ParseScrapedFile(content);
    if scraped.language != "java" || scraped.code == "" {
      return [];
    }
    var tree := parse(scraped.code);
    if tree.None? {
      return [];
    }
    var methods := tree.value;
    pairs := [];
    for i := 0 to |methods|
      invariant pairs == JavaPairsOf(path, scraped.header, methods[..i])
    {
      assert methods[..i + 1][..i] == methods[..i];
      var node := methods[i];
      if node.documentation != "" {
        pairs := pairs + [Pair("java", path, node.name, "// Code for " + node.name, node.documentation,
                               scraped.header, false)];
      }
    }
    assert methods[..|methods|] == methods;
  }

  // ---------------------------------------------------------------------------
  // Step 1 of `process`: collecting the pairs of each file.

  /** The pairs `process` collects for one file: by the language its header declares. */
  function FilePairs(path: string, content: Option<string>, pyParse: string -> Option<Node>,
                     javaParse: string -> Option<seq<MethodDeclaration>>): (r: seq<Pair>)
    ensures forall k :: 0 <= k < |r| ==>
      r[k].filePath == path && !r[k].augmented && r[k].language == ScrapedFields(content).language
  {
    var language := ScrapedFields(content).language;
    if language == "python" then PythonPairs(path, content, pyParse)
    else if language == "java" then JavaPairs(path, content, javaParse)
    else []
  }

  /** `FilePairs` as a function of the path alone. */
  function PairsOfFile(read: string -> Option<string>, pyParse: string -> Option<Node>,
                       javaParse: string -> Option<seq<MethodDeclaration>>): string -> seq<Pair>
  {
    f => FilePairs(f, read(f), pyParse, javaParse)
  }

  /** `data_by_file`: its keys in insertion order, and the dictionary itself. */
  datatype Grouped = Grouped(keys: seq<string>, byFile: map<string, seq<Pair>>)

  /** `data_by_file[f] = pairs` for every file with at least one pair, in order. */
  function GroupByFile(files: seq<string>, pairsOf: string -> seq<Pair>): Grouped {
    if files == [] then Grouped([], map[])
    else
      var g := GroupByFile(files[..|files| - 1], pairsOf);
      var f := files[|files| - 1];
      var pairs := pairsOf(f);
      if pairs == [] then g
      else Grouped(if f in g.byFile then g.keys else g.keys + [f], g.byFile[f := pairs])
  }

  predicate Distinct<T(==)>(s: seq<T>) {
    forall i, j :: 0 <= i < j < |s| ==> s[i] != s[j]
  }

  /**
   * The dictionary holds exactly the files with at least one pair, each once,
   * in the order they were first found, each with its own pairs.
   */
  lemma {:induction false} GroupByFileSound(files: seq<string>, pairsOf: string -> seq<Pair>)
    ensures var g := GroupByFile(files, pairsOf);
      Distinct(g.keys)
      && (forall f :: f in g.byFile <==> f in g.keys)
      && (forall f :: f in g.byFile ==> f in files && g.byFile[f] == pairsOf(f) && g.byFile[f] != [])
      && (forall k :: 0 <= k < |files| && pairsOf(files[k]) != [] ==> files[k] in g.byFile)
  {
    if files != [] {
      var init := files[..|files| - 1];
      GroupByFileSound(init, pairsOf);
      forall k | 0 <= k < |init| ensures files[k] == init[k] { }
    }
  }

  // ---------------------------------------------------------------------------
  // Step 2 of `process`: the split by file.

  /** `p` lists each of `0..n-1` exactly once. */
  predicate IsPermutation(p: seq<nat>, n: nat) {
    |p| == n
    && (forall i :: 0 <= i < n ==> p[i] < n)
    && (forall i, j :: 0 <= i < j < n ==> p[i] != p[j])
    && (forall v :: 0 <= v < n ==> v in p)
  }

  /** `xs[p[lo]], ..., xs[p[hi-1]]`. */
  function Pick<T>(xs: seq<T>, p: seq<nat>, lo: nat, hi: nat): (r: seq<T>)
    requires lo <= hi <= |p| && forall i :: 0 <= i < |p| ==> p[i] < |xs|
    ensures |r| == hi - lo
    ensures forall k :: 0 <= k < |r| ==> r[k] == xs[p[lo + k]]
  {
    seq(hi - lo, k requires 0 <= k < hi - lo => xs[p[lo + k]])
  }

  /**
   * `train_test_split(xs, test_size=..., random_state=42)` as a shuffle split:
   * the first `nTest` positions of the permutation are the test part, the rest
   * the train part; the result is `(train, test)`.
   */
  function TrainTestSplit<T>(xs: seq<T>, p: seq<nat>, nTest: nat): (seq<T>, seq<T>)
    requires IsPermutation(p, |xs|) && nTest <= |xs|
  {
    (Pick(xs, p, nTest, |xs|), Pick(xs, p, 0, nTest))
  }

  /** `ceil(0.2 * n)` and `ceil(0.5 * n)`, the test sizes for `test_size=0.2` and `0.5`. */
  function CeilFifth(n: nat): nat {
    (n + 4) / 5
  }

  function CeilHalf(n: nat): nat {
    (n + 1) / 2
  }

  datatype Split = Split(train: seq<string>, val: seq<string>, test: seq<string>)

  /**
   * Fewer than three files all go to training. Otherwise a fifth (rounded up)
   * is held out; if more than one file is held out, half of those (rounded up)
   * become the test set and the rest the validation set, and otherwise the one
   * held-out file is the validation set and the test set is empty.
   */
  function SplitFiles(files: seq<string>, permutation: nat -> seq<nat>): (r: Split)
    requires forall n :: IsPermutation(permutation(n), n)
    ensures forall k :: 0 <= k < |r.train| ==> r.train[k] in files
    ensures forall k :: 0 <= k < |r.val| ==> r.val[k] in files
    ensures forall k :: 0 <= k < |r.test| ==> r.test[k] in files
  {
    if |files| < 3 then Split(files, [], [])
    else
      var (train, held) := TrainTestSplit(files, permutation(|files|), CeilFifth(|files|));
      if |held| > 1 then
        var (val, test) := TrainTestSplit(held, permutation(|held|), CeilHalf(|held|));
        Split(train, val, test)
      else
        Split(train, held, [])
  }

  /** Every element goes to exactly one side, and both sides keep the elements distinct. */
  lemma TrainTestSplitPartition<T>(xs: seq<T>, p: seq<nat>, nTest: nat)
    requires IsPermutation(p, |xs|) && nTest <= |xs| && Distinct(xs)
    ensures var (train, test) := TrainTestSplit(xs, p, nTest);
      |train| == |xs| - nTest && |test| == nTest
      && Distinct(train) && Distinct(test)
      && (forall x :: x in xs <==> x in train || x in test)
      && (forall x :: !(x in train && x in test))
  {
    var (train, test) := TrainTestSplit(xs, p, nTest);
    forall i, j | 0 <= i < j < |train| ensures train[i] != train[j] {
      assert p[nTest + i] != p[nTest + j];
    }
    forall i, j | 0 <= i < j < |test| ensures test[i] != test[j] {
      assert p[i] != p[j];
    }
    forall x | x in xs ensures x in train || x in test {
      var v :| 0 <= v < |xs| && xs[v] == x;
      assert v in p;
      var k :| 0 <= k < |p| && p[k] == v;
      if k < nTest {
        assert test[k] == x;
      } else {
        assert train[k - nTest] == x;
      }
    }
    forall a, b | 0 <= a < |train| && 0 <= b < |test| ensures train[a] != test[b] {
      assert p[nTest + a] != p[b];
    }
  }

  /**
   * For distinct files, the split is a partition: every file lands in exactly
   * one of the three sets, none twice; a fifth (rounded up) of three or more
   * files is held out, at least one of them for validation.
   */
  lemma SplitFilesPartition(files: seq<string>, permutation: nat -> seq<nat>)
    requires forall n :: IsPermutation(permutation(n), n)
    requires Distinct(files)
    ensures var s := SplitFiles(files, permutation);
      Distinct(s.train) && Distinct(s.val) && Distinct(s.test)
      && (forall f :: f in files <==> f in s.train || f in s.val || f in s.test)
      && (forall f :: !(f in s.train && f in s.val))
      && (forall f :: !(f in s.train && f in s.test))
      && (forall f :: !(f in s.val && f in s.test))
      && (|files| < 3 ==> s.train == files && s.val == [] && s.test == [])
      && (|files| >= 3 ==>
            |s.train| == |files| - CeilFifth(|files|)
            && |s.val| + |s.test| == CeilFifth(|files|) && |s.val| >= 1)
  {
    if |files| >= 3 {
      TrainTestSplitPartition(files, permutation(|files|), CeilFifth(|files|));
      var (train, held) := TrainTestSplit(files, permutation(|files|), CeilFifth(|files|));
      if |held| > 1 {
        TrainTestSplitPartition(held, permutation(|held|), CeilHalf(|held|));
      }
    }
  }

  /** Three to five files leave the test set empty: only one file is held out. */
  lemma FewFilesNoTestSet(files: seq<string>, permutation: nat -> seq<nat>)
    requires forall n :: IsPermutation(permutation(n), n)
    requires 3 <= |files| <= 5
    ensures SplitFiles(files, permutation).test == []
    ensures |SplitFiles(files, permutation).val| == 1
  {
  }

  // ---------------------------------------------------------------------------
  // Step 3 of `process`: `_flatten_data`.

  /** The pairs of the listed files, file after file. */
  function FlattenOf(byFile: map<string, seq<Pair>>, list: seq<string>): (r: seq<Pair>)
    requires forall k :: 0 <= k < |list| ==> list[k] in byFile
    ensures forall p :: p in r <==> exists k :: 0 <= k < |list| && p in byFile[list[k]]
  {
    if list == [] then []
    else
      var init := list[..|list| - 1];
      var r := FlattenOf(byFile, init) + byFile[list[|list| - 1]];
      assert forall k :: 0 <= k < |init| ==> init[k] == list[k];
      r
  }

  method FlattenData(byFile: map<string, seq<Pair>>, list: seq<string>) returns (flat: seq<Pair>)
    requires forall k :: 0 <= k < |list| ==> list[k] in byFile
    ensures flat == FlattenOf(byFile, list)
  {
    flat := [];
    for i := 0 to |list|
      invariant flat == FlattenOf(byFile, list[..i])
    {
      assert list[..i + 1][..i] == list[..i];
      flat := flat + byFile[list[i]];
    }
    assert list[..|list|] == list;
  }

  // ---------------------------------------------------------------------------
  // Step 4 of `process`: augmentation.

  /** `_augment_python_rename`: the renamed and unparsed code, or the code itself when it does not parse. */
  function RenamedSource(code: string, parse: string -> Option<Node>, unparse: Node -> string): string {
    match parse(code)
    case None => code
    case Some(tree) => unparse(RenameNode(tree, map[], 0).value)
  }

  method AugmentPythonRename(code: string, parse: string -> Option<Node>, unparse: Node -> string)
    returns (r: string)
    ensures r == RenamedSource(code, parse, unparse)
  {
    var tree := parse(code);
    if tree.None? {
      return code;
    }
    var renamed := RenameTree(tree.value);
    r := unparse(renamed);
  }

  /** `c` is the renamed copy of the Python pair `d`: same fields, the differing renamed code, marked augmented. */
  predicate IsCopyOf(c: Pair, d: Pair, parse: string -> Option<Node>, unparse: Node -> string) {
    d.language == "python"
    && c.code == RenamedSource(d.code, parse, unparse) && c.code != d.code
    && c == d.(code := c.code, augmented := true)
  }

  /** The copies `_augment_data` appends: one per Python pair whose renamed code differs. */
  function AugCopies(data: seq<Pair>, parse: string -> Option<Node>, unparse: Node -> string): (r: seq<Pair>)
    ensures |r| <= |data|
    ensures forall k :: 0 <= k < |r| ==>
      r[k].augmented && r[k].language == "python"
      && exists i :: 0 <= i < |data| && IsCopyOf(r[k], data[i], parse, unparse)
  {
    if data == [] then []
    else
      var init := data[..|data| - 1];
      var item := data[|data| - 1];
      var aug := RenamedSource(item.code, parse, unparse);
      var prev := AugCopies(init, parse, unparse);
      var last := if item.language == "python" && aug != item.code then [item.(code := aug, augmented := true)] else [];
      assert forall i :: 0 <= i < |init| ==> init[i] == data[i];
      assert forall k :: 0 <= k < |last| ==> IsCopyOf(last[k], data[|data| - 1], parse, unparse);
      prev + last
  }

  /** Every Python pair whose renamed code differs gets its copy. */
  lemma {:induction false} AugCopiesComplete(data: seq<Pair>, parse: string -> Option<Node>, unparse: Node -> string)
    ensures forall i :: 0 <= i < |data| && data[i].language == "python"
                        && RenamedSource(data[i].code, parse, unparse) != data[i].code ==>
      data[i].(code := RenamedSource(data[i].code, parse, unparse), augmented := true) in AugCopies(data, parse, unparse)
  {
    if data != [] {
      var init := data[..|data| - 1];
      AugCopiesComplete(init, parse, unparse);
      forall i | 0 <= i < |init| ensures init[i] == data[i] { }
    }
  }

  /**
   * A copy differs from its original only in identifiers: its code is the
   * unparsing of a tree with the original's skeleton.
   */
  lemma AugmentedCopyRenamesOnly(data: seq<Pair>, parse: string -> Option<Node>, unparse: Node -> string, k: nat)
    requires k < |AugCopies(data, parse, unparse)|
    ensures exists i, tree ::
              0 <= i < |data| && parse(data[i].code) == Some(tree)
              && AugCopies(data, parse, unparse)[k].code == unparse(RenameNode(tree, map[], 0).value)
              && Skeleton(RenameNode(tree, map[], 0).value) == Skeleton(tree)
  {
    var c := AugCopies(data, parse, unparse)[k];
    var i :| 0 <= i < |data| && IsCopyOf(c, data[i], parse, unparse);
    var tree := parse(data[i].code).value;
    FreshRenaming(tree);
  }

  /** One more pair of the data adds its copy, if it gets one, at the end. */
  lemma AugCopiesStep(data: seq<Pair>, parse: string -> Option<Node>, unparse: Node -> string, i: nat)
    requires i < |data|
    ensures var aug := RenamedSource(data[i].code, parse, unparse);
      AugCopies(data[..i + 1], parse, unparse)
      == AugCopies(data[..i], parse, unparse)
         + (if data[i].language == "python" && aug != data[i].code then [data[i].(code := aug, augmented := true)] else [])
  {
    assert data[..i + 1][..i] == data[..i];
    assert data[..i + 1][i] == data[i];
  }

  method AugmentData(data: seq<Pair>, parse: string -> Option<Node>, unparse: Node -> string)
    returns (augmented: seq<Pair>)
    ensures augmented == data + AugCopies(data, parse, unparse)
  {
    augmented := data;
    for i := 0 to |data|
      invariant augmented == data + AugCopies(data[..i], parse, unparse)
    {
      AugCopiesStep(data, parse, unparse, i);
      var item := data[i];
      ghost var aug := RenamedSource(item.code, parse, unparse);
      ghost var last := if item.language == "python" && aug != item.code then [item.(code := aug, augmented := true)] else [];
      ghost var before := augmented;
      if item.language == "python" {
        var code := AugmentPythonRename(item.code, parse, unparse);
        if code != item.code {
          augmented := augmented + [item.(code := code, augmented := true)];
        }
      }
      assert augmented == before + last;
    }
    assert data[..|data|] == data;
  }

  // ---------------------------------------------------------------------------
  // `process`

  datatype Datasets = Datasets(train: seq<Pair>, val: seq<Pair>, test: seq<Pair>)

  /** Split, flatten and augment a grouping: steps 2 to 4 of `process`. */
  function SplitDatasets(files: seq<string>, pairsOf: string -> seq<Pair>, permutation: nat -> seq<nat>,
                     parse: string -> Option<Node>, unparse: Node -> string): Datasets
    requires forall n :: IsPermutation(permutation(n), n)
  {
    var g := GroupByFile(files, pairsOf);
    GroupByFileSound(files, pairsOf);
    var s := SplitFiles(g.keys, permutation);
    var train := FlattenOf(g.byFile, s.train);
    Datasets(train + AugCopies(train, parse, unparse), FlattenOf(g.byFile, s.val), FlattenOf(g.byFile, s.test))
  }

  /** The three datasets `process` writes, from the files the glob found. */
  function Pipeline(found: seq<string>, read: string -> Option<string>, pyParse: string -> Option<Node>,
                    javaParse: string -> Option<seq<MethodDeclaration>>, unparse: Node -> string,
                    permutation: nat -> seq<nat>): Datasets
    requires forall n :: IsPermutation(permutation(n), n)
  {
    SplitDatasets(GetFiles(found), PairsOfFile(read, pyParse, javaParse), permutation, pyParse, unparse)
  }

  /** The loop of `process` over the found files: each file's pairs, grouped by path. */
  method GroupFiles(files: seq<string>, read: string -> Option<string>, pyParse: string -> Option<Node>,
                    javaParse: string -> Option<seq<MethodDeclaration>>)
    returns (keys: seq<string>, byFile: map<string, seq<Pair>>)
    ensures Grouped(keys, byFile) == GroupByFile(files, PairsOfFile(read, pyParse, javaParse))
  {
    keys := [];
    byFile := map[];
    for i := 0 to |files|
      invariant Grouped(keys, byFile) == GroupByFile(files[..i], PairsOfFile(read, pyParse, javaParse))
    {
      assert files[..i + 1][..i] == files[..i];
      var path := files[i];
      var header := ParseScrapedFile(read(path));
      var pairs: seq<Pair> := [];
      if header.language == "python" {
        pairs := ExtractPython(path, read(path), pyParse);
      } else if header.language == "java" {
        pairs := ExtractJava(path, read(path), javaParse);
      }
      assert pairs == PairsOfFile(read, pyParse, javaParse)(path);
      if pairs != [] {
        if path !in byFile {
          keys := keys + [path];
        }
        byFile := byFile[path := pairs];
      }
    }
    assert files[..|files|] == files;
  }

  method Process(found: seq<string>, read: string -> Option<string>, pyParse: string -> Option<Node>,
                 javaParse: string -> Option<seq<MethodDeclaration>>, unparse: Node -> string,
                 permutation: nat -> seq<nat>) returns (d: Datasets)
    requires forall n :: IsPermutation(permutation(n), n)
    ensures d == Pipeline(found, read, pyParse, javaParse, unparse, permutation)
  {
    var files := GetFiles(found);
    var keys, byFile := GroupFiles(files, read, pyParse, javaParse);
    GroupByFileSound(files, PairsOfFile(read, pyParse, javaParse));
    var s := SplitFiles(keys, permutation);
    var train := FlattenData(byFile, s.train);
    var val := FlattenData(byFile, s.val);
    var test := FlattenData(byFile, s.test);
    var augmentedTrain := AugmentData(train, pyParse, unparse);
    d := Datasets(augmentedTrain, val, test);
  }

  /** Every pair a file yields carries that file's path. */
  ghost predicate CarriesPaths(pairsOf: string -> seq<Pair>) {
    forall f :: forall k :: 0 <= k < |pairsOf(f)| ==> pairsOf(f)[k].filePath == f
  }

  lemma PairsOfFileCarriesPaths(read: string -> Option<string>, pyParse: string -> Option<Node>,
                                javaParse: string -> Option<seq<MethodDeclaration>>)
    ensures CarriesPaths(PairsOfFile(read, pyParse, javaParse))
  {
    var pairsOf := PairsOfFile(read, pyParse, javaParse);
    forall f ensures forall k :: 0 <= k < |pairsOf(f)| ==> pairsOf(f)[k].filePath == f {
      assert pairsOf(f) == FilePairs(f, read(f), pyParse, javaParse);
    }
  }

  /** The pairs of the listed files carry only the listed paths. */
  lemma FlattenOfPaths(files: seq<string>, pairsOf: string -> seq<Pair>, list: seq<string>)
    requires CarriesPaths(pairsOf)
    requires forall k :: 0 <= k < |list| ==> list[k] in GroupByFile(files, pairsOf).byFile
    ensures forall p :: p in FlattenOf(GroupByFile(files, pairsOf).byFile, list) ==> p.filePath in list
  {
    var g := GroupByFile(files, pairsOf);
    GroupByFileSound(files, pairsOf);
    forall p | p in FlattenOf(g.byFile, list) ensures p.filePath in list {
      var k :| 0 <= k < |list| && p in g.byFile[list[k]];
      assert g.byFile[list[k]] == pairsOf(list[k]);
    }
  }

  /** A renamed copy carries the path of its original. */
  lemma AugCopiesPaths(data: seq<Pair>, parse: string -> Option<Node>, unparse: Node -> string, list: seq<string>)
    requires forall p :: p in data ==> p.filePath in list
    ensures forall p :: p in data + AugCopies(data, parse, unparse) ==> p.filePath in list
  {
    var copies := AugCopies(data, parse, unparse);
    forall p | p in copies ensures p.filePath in list {
      var k :| 0 <= k < |copies| && copies[k] == p;
      var i :| 0 <= i < |data| && IsCopyOf(p, data[i], parse, unparse);
      assert data[i] in data;
    }
  }

  /** The split datasets of any grouping whose pairs carry their file's path share no path. */
  lemma DatasetsApart(files: seq<string>, pairsOf: string -> seq<Pair>, permutation: nat -> seq<nat>,
                      parse: string -> Option<Node>, unparse: Node -> string)
    requires forall n :: IsPermutation(permutation(n), n)
    requires CarriesPaths(pairsOf)
    ensures var d := SplitDatasets(files, pairsOf, permutation, parse, unparse);
      (forall p, q :: p in d.train && q in d.val ==> p.filePath != q.filePath)
      && (forall p, q :: p in d.train && q in d.test ==> p.filePath != q.filePath)
      && (forall p, q :: p in d.val && q in d.test ==> p.filePath != q.filePath)
  {
    var g := GroupByFile(files, pairsOf);
    GroupByFileSound(files, pairsOf);
    var s := SplitFiles(g.keys, permutation);
    SplitFilesPartition(g.keys, permutation);
    FlattenOfPaths(files, pairsOf, s.train);
    FlattenOfPaths(files, pairsOf, s.val);
    FlattenOfPaths(files, pairsOf, s.test);
    AugCopiesPaths(FlattenOf(g.byFile, s.train), parse, unparse, s.train);
  }

  /**
   * No leakage: no file contributes pairs to two of the datasets, renamed
   * copies included.
   */
  lemma NoLeakage(found: seq<string>, read: string -> Option<string>, pyParse: string -> Option<Node>,
                  javaParse: string -> Option<seq<MethodDeclaration>>, unparse: Node -> string,
                  permutation: nat -> seq<nat>)
    requires forall n :: IsPermutation(permutation(n), n)
    ensures var d := Pipeline(found, read, pyParse, javaParse, unparse, permutation);
      (forall p, q :: p in d.train && q in d.val ==> p.filePath != q.filePath)
      && (forall p, q :: p in d.train && q in d.test ==> p.filePath != q.filePath)
      && (forall p, q :: p in d.val && q in d.test ==> p.filePath != q.filePath)
  {
    PairsOfFileCarriesPaths(read, pyParse, javaParse);
    DatasetsApart(GetFiles(found), PairsOfFile(read, pyParse, javaParse), permutation, pyParse, unparse);
  }

  /**
   * Nothing is lost and nothing is invented: every pair of every file lands in
   * one of the datasets, and every dataset pair is a pair of one of the files,
   * except the renamed copies, which are marked augmented.
   */
  lemma DatasetsCover(files: seq<string>, pairsOf: string -> seq<Pair>, permutation: nat -> seq<nat>,
                      parse: string -> Option<Node>, unparse: Node -> string)
    requires forall n :: IsPermutation(permutation(n), n)
    ensures var d := SplitDatasets(files, pairsOf, permutation, parse, unparse);
      (forall f, p :: f in files && p in pairsOf(f) ==> p in d.train || p in d.val || p in d.test)
      && (forall p :: p in d.train ==> p.augmented || exists f :: f in files && p in pairsOf(f))
      && (forall p :: p in d.val || p in d.test ==> exists f :: f in files && p in pairsOf(f))
  {
    DatasetsComplete(files, pairsOf, permutation, parse, unparse);
    TrainingFromFiles(files, pairsOf, permutation, parse, unparse);
    HeldOutFromFiles(files, pairsOf, permutation, parse, unparse);
  }

  lemma DatasetsComplete(files: seq<string>, pairsOf: string -> seq<Pair>, permutation: nat -> seq<nat>,
                         parse: string -> Option<Node>, unparse: Node -> string)
    requires forall n :: IsPermutation(permutation(n), n)
    ensures var d := SplitDatasets(files, pairsOf, permutation, parse, unparse);
      forall f, p :: f in files && p in pairsOf(f) ==> p in d.train || p in d.val || p in d.test
  {
    var g := GroupByFile(files, pairsOf);
    GroupByFileSound(files, pairsOf);
    var s := SplitFiles(g.keys, permutation);
    SplitFilesPartition(g.keys, permutation);
    var train := FlattenOf(g.byFile, s.train);
    var d := SplitDatasets(files, pairsOf, permutation, parse, unparse);
    assert d.train == train + AugCopies(train, parse, unparse);
    assert d.val == FlattenOf(g.byFile, s.val) && d.test == FlattenOf(g.byFile, s.test);
    forall f, p | f in files && p in pairsOf(f) ensures p in d.train || p in d.val || p in d.test {
      FileGrouped(files, pairsOf, f, p);
      PairLands(g.byFile, s, f, p);
    }
  }

  /** A file with a pair is a key of the grouping, under its own pairs. */
  lemma FileGrouped(files: seq<string>, pairsOf: string -> seq<Pair>, f: string, p: Pair)
    requires f in files && p in pairsOf(f)
    ensures f in GroupByFile(files, pairsOf).keys
    ensures f in GroupByFile(files, pairsOf).byFile && GroupByFile(files, pairsOf).byFile[f] == pairsOf(f)
  {
    GroupByFileSound(files, pairsOf);
    var i :| 0 <= i < |files| && files[i] == f;
  }

  /** A pair of a file in one of the three lists is in that list's flattening. */
  lemma PairLands(byFile: map<string, seq<Pair>>, s: Split, f: string, p: Pair)
    requires forall k :: 0 <= k < |s.train| ==> s.train[k] in byFile
    requires forall k :: 0 <= k < |s.val| ==> s.val[k] in byFile
    requires forall k :: 0 <= k < |s.test| ==> s.test[k] in byFile
    requires f in byFile && p in byFile[f]
    requires f in s.train || f in s.val || f in s.test
    ensures p in FlattenOf(byFile, s.train) || p in FlattenOf(byFile, s.val) || p in FlattenOf(byFile, s.test)
  {
    if f in s.train {
      FlattenOfHolds(byFile, s.train, f, p);
    } else if f in s.val {
      FlattenOfHolds(byFile, s.val, f, p);
    } else {
      FlattenOfHolds(byFile, s.test, f, p);
    }
  }

  lemma TrainingFromFiles(files: seq<string>, pairsOf: string -> seq<Pair>, permutation: nat -> seq<nat>,
                          parse: string -> Option<Node>, unparse: Node -> string)
    requires forall n :: IsPermutation(permutation(n), n)
    ensures var d := SplitDatasets(files, pairsOf, permutation, parse, unparse);
      forall p :: p in d.train ==> p.augmented || exists f :: f in files && p in pairsOf(f)
  {
    var g := GroupByFile(files, pairsOf);
    GroupByFileSound(files, pairsOf);
    var s := SplitFiles(g.keys, permutation);
    var train := FlattenOf(g.byFile, s.train);
    var copies := AugCopies(train, parse, unparse);
    assert SplitDatasets(files, pairsOf, permutation, parse, unparse).train == train + copies;
    forall p: Pair | p in train + copies ensures p.augmented || exists f :: f in files && p in pairsOf(f) {
      if p in train {
        FlattenedFromFiles(files, pairsOf, s.train, p);
      } else {
        var k :| 0 <= k < |copies| && copies[k] == p;
      }
    }
  }

  lemma HeldOutFromFiles(files: seq<string>, pairsOf: string -> seq<Pair>, permutation: nat -> seq<nat>,
                         parse: string -> Option<Node>, unparse: Node -> string)
    requires forall n :: IsPermutation(permutation(n), n)
    ensures var d := SplitDatasets(files, pairsOf, permutation, parse, unparse);
      forall p :: p in d.val || p in d.test ==> exists f :: f in files && p in pairsOf(f)
  {
    var g := GroupByFile(files, pairsOf);
    GroupByFileSound(files, pairsOf);
    var s := SplitFiles(g.keys, permutation);
    var val, test := FlattenOf(g.byFile, s.val), FlattenOf(g.byFile, s.test);
    var d := SplitDatasets(files, pairsOf, permutation, parse, unparse);
    assert d.val == val && d.test == test;
    forall p | p in val ensures exists f :: f in files && p in pairsOf(f) {
      FlattenedFromFiles(files, pairsOf, s.val, p);
    }
    forall p | p in test ensures exists f :: f in files && p in pairsOf(f) {
      FlattenedFromFiles(files, pairsOf, s.test, p);
    }
  }

  /** A pair in the flattening of some grouped files is a pair of one of the files. */
  lemma FlattenedFromFiles(files: seq<string>, pairsOf: string -> seq<Pair>, list: seq<string>, p: Pair)
    requires forall k :: 0 <= k < |list| ==> list[k] in GroupByFile(files, pairsOf).byFile
    requires p in FlattenOf(GroupByFile(files, pairsOf).byFile, list)
    ensures exists f :: f in files && p in pairsOf(f)
  {
    var g := GroupByFile(files, pairsOf);
    GroupByFileSound(files, pairsOf);
    var k :| 0 <= k < |list| && p in g.byFile[list[k]];
    assert list[k] in files && p in pairsOf(list[k]);
  }

  /** A listed file's pairs are all in the flattening of the list. */
  lemma FlattenOfHolds(byFile: map<string, seq<Pair>>, list: seq<string>, f: string, p: Pair)
    requires forall k :: 0 <= k < |list| ==> list[k] in byFile
    requires f in list && f in byFile && p in byFile[f]
    ensures p in FlattenOf(byFile, list)
  {
    var k :| 0 <= k < |list| && list[k] == f;
  }

  /**
   * Every pair extracted from a found file ends up in the training,
   * validation or test set, and every pair of the three sets that is not a
   * renamed copy was extracted from one of the found files.
   */
  lemma PipelineCovers(found: seq<string>, read: string -> Option<string>, pyParse: string -> Option<Node>,
                       javaParse: string -> Option<seq<MethodDeclaration>>, unparse: Node -> string,
                       permutation: nat -> seq<nat>)
    requires forall n :: IsPermutation(permutation(n), n)
    ensures var d := Pipeline(found, read, pyParse, javaParse, unparse, permutation);
      (forall f, p :: f in GetFiles(found) && p in FilePairs(f, read(f), pyParse, javaParse) ==>
         p in d.train || p in d.val || p in d.test)
      && (forall p :: (p in d.train && !p.augmented) || p in d.val || p in d.test ==>
         exists f :: f in GetFiles(found) && p in FilePairs(f, read(f), pyParse, javaParse))
  {
    var files := GetFiles(found);
    var pairsOf := PairsOfFile(read, pyParse, javaParse);
    var d := Pipeline(found, read, pyParse, javaParse, unparse, permutation);
    DatasetsCover(files, pairsOf, permutation, pyParse, unparse);
    forall f, p | f in files && p in FilePairs(f, read(f), pyParse, javaParse)
      ensures p in d.train || p in d.val || p in d.test
    {
      assert p in pairsOf(f);
    }
    forall p | (p in d.train && !p.augmented) || p in d.val || p in d.test
      ensures exists f :: f in files && p in FilePairs(f, read(f), pyParse, javaParse)
    {
      var f :| f in files && p in pairsOf(f);
      assert pairsOf(f) == FilePairs(f, read(f), pyParse, javaParse);
    }
  }

  /** Fewer than three files with pairs: validation and test sets are empty. */
  lemma SmallCorpusAllTraining(files: seq<string>, pairsOf: string -> seq<Pair>, permutation: nat -> seq<nat>,
                               parse: string -> Option<Node>, unparse: Node -> string)
    requires forall n :: IsPermutation(permutation(n), n)
    requires |GroupByFile(files, pairsOf).keys| < 3
    ensures SplitDatasets(files, pairsOf, permutation, parse, unparse).val == []
    ensures SplitDatasets(files, pairsOf, permutation, parse, unparse).test == []
  {
  }

  /** Validation and test pairs are never augmented: only the training set gets renamed copies. */
  lemma OnlyTrainingAugmented(found: seq<string>, read: string -> Option<string>, pyParse: string -> Option<Node>,
                              javaParse: string -> Option<seq<MethodDeclaration>>, unparse: Node -> string,
                              permutation: nat -> seq<nat>)
    requires forall n :: IsPermutation(permutation(n), n)
    ensures var d := Pipeline(found, read, pyParse, javaParse, unparse, permutation);
      (forall q :: q in d.val ==> !q.augmented) && (forall q :: q in d.test ==> !q.augmented)
  {
    var files := GetFiles(found);
    var pairsOf := PairsOfFile(read, pyParse, javaParse);
    forall f ensures forall k :: 0 <= k < |pairsOf(f)| ==> !pairsOf(f)[k].augmented {
      assert pairsOf(f) == FilePairs(f, read(f), pyParse, javaParse);
    }
    HeldOutNotAugmented(files, pairsOf, permutation, pyParse, unparse);
  }

  lemma HeldOutNotAugmented(files: seq<string>, pairsOf: string -> seq<Pair>, permutation: nat -> seq<nat>,
                            parse: string -> Option<Node>, unparse: Node -> string)
    requires forall n :: IsPermutation(permutation(n), n)
    requires forall f :: forall k :: 0 <= k < |pairsOf(f)| ==> !pairsOf(f)[k].augmented
    ensures var d := SplitDatasets(files, pairsOf, permutation, parse, unparse);
      (forall q :: q in d.val ==> !q.augmented) && (forall q :: q in d.test ==> !q.augmented)
  {
    HeldOutFromFiles(files, pairsOf, permutation, parse, unparse);
    var d := SplitDatasets(files, pairsOf, permutation, parse, unparse);
    forall q | q in d.val || q in d.test ensures !q.augmented {
      var f :| f in files && q in pairsOf(f);
      var k :| 0 <= k < |pairsOf(f)| && pairsOf(f)[k] == q;
    }
  }
}
