/**
 * `MetricsAnalyzer`: per-file metrics. Python files get radon's figures, one
 * record per radon function block, docstring flags from `ast.walk`, and then
 * lizard's size figures merged into the matching records. Java files get
 * lizard's records with javalang's documentation flags.
 *
 * The foreign analyses are inputs: what radon, ast, lizard and javalang
 * report for the file, None where the call raises.
 */
module Analyzer {
  import opened Wrappers
  import opened Strings
  import opened Seqs
  import opened Paths
  import opened PyAst
  import opened JavaAst

  datatype FunctionKind = Function | Method

  /** One entry of the `functions` list; absent keys are None. */
  datatype FunctionMetric = FunctionMetric(
    name: string,
    lineno: int,
    complexity: int,
    kind: Option<FunctionKind>,
    hasDocstring: bool,
    nloc: Option<int>,
    tokenCount: Option<int>,
    params: Option<nat>,
    lizardComplexity: Option<int>)

  /** The dictionary a file analysis returns; absent keys are None. */
  datatype FileMetrics = FileMetrics(
    filePath: Option<string>,
    language: string,
    loc: int,
    sloc: Option<int>,
    nloc: Option<int>,
    maintainabilityIndex: Option<real>,
    functions: seq<FunctionMetric>)

  /** A block of radon's `cc_visit`: a function (or method) or a class. */
  datatype Block =
    | FunctionBlock(name: string, lineno: int, complexity: int, isMethod: bool)
    | ClassBlock(name: string, lineno: int, complexity: int)

  datatype RawMetrics = RawMetrics(loc: int, sloc: int)

  /** What `mi_visit`, `raw.analyze`, `ast.parse` and `cc_visit` give for a piece of code. */
  datatype PythonFacts = PythonFacts(
    mi: Option<real>,
    raw: Option<RawMetrics>,
    tree: Option<Node>,
    blocks: Option<seq<Block>>)

  datatype LizardFunction = LizardFunction(
    name: string,
    startLine: int,
    nloc: int,
    tokenCount: int,
    cyclomaticComplexity: int,
    parameters: seq<string>)

  datatype LizardFile = LizardFile(nloc: int, functionList: seq<LizardFunction>)

  /** What the foreign tools give for one file on disk. */
  datatype FileFacts = FileFacts(
    python: PythonFacts,
    lizard: Option<LizardFile>,
    javaMethods: Option<seq<MethodDeclaration>>,
    lineCount: Option<nat>)

  // ---------------------------------------------------------------------------
  // Docstring maps: `docstrings[name] = flag` in a loop, so the last entry wins.

  /** The map a loop of `m[key] = flag` over `xs` leaves, where `entry` picks the assignments. */
  function LastWins<T>(xs: seq<T>, entry: T -> Option<(string, bool)>): map<string, bool> {
    if xs == [] then map[]
    else
      var m := LastWins(xs[..|xs| - 1], entry);
      var e := entry(xs[|xs| - 1]);
      if e.Some? then m[e.value.0 := e.value.1] else m
  }

  /** A name no entry assigns is absent. */
  lemma {:induction false} LastWinsAbsent<T>(xs: seq<T>, entry: T -> Option<(string, bool)>, name: string)
    requires forall i :: 0 <= i < |xs| && entry(xs[i]).Some? ==> entry(xs[i]).value.0 != name
    ensures name !in LastWins(xs, entry)
  {
    if xs != [] {
      LastWinsAbsent(xs[..|xs| - 1], entry, name);
    }
  }

  /** A name maps to the flag of the last entry that assigns it. */
  lemma {:induction false} LastWinsLast<T>(xs: seq<T>, entry: T -> Option<(string, bool)>, name: string, i: nat)
    requires i < |xs| && entry(xs[i]).Some? && entry(xs[i]).value.0 == name
    requires forall j :: i < j < |xs| && entry(xs[j]).Some? ==> entry(xs[j]).value.0 != name
    ensures name in LastWins(xs, entry) && LastWins(xs, entry)[name] == entry(xs[i]).value.1
  {
    if i < |xs| - 1 {
      LastWinsLast(xs[..|xs| - 1], entry, name, i);
    }
  }

  /** `docstrings.get(name, False)`. */
  function DocFlag(docs: map<string, bool>, name: string): bool {
    if name in docs then docs[name] else false
  }

  /** The assignment the Python loop makes for a node of `ast.walk`. */
  function PythonEntry(n: Node): Option<(string, bool)> {
    if IsFunction(n) then Some((n.kind.name, n.kind.docstring != "")) else None
  }

  /** The assignment the Java loop makes for a method declaration. */
  function JavaEntry(m: MethodDeclaration): Option<(string, bool)> {
    Some((m.name, m.documentation != ""))
  }

  method PythonDocstrings(walk: seq<Node>) returns (docs: map<string, bool>)
    ensures docs == LastWins(walk, PythonEntry)
  {
    docs := map[];
    var i := 0;
    while i < |walk|
      invariant 0 <= i <= |walk|
      invariant docs == LastWins(walk[..i], PythonEntry)
    {
      assert walk[..i + 1][..i] == walk[..i];
      var node := walk[i];
      if IsFunction(node) {
        docs := docs[node.kind.name := node.kind.docstring != ""];
      }
      i := i + 1;
    }
    assert walk[..i] == walk;
  }

  method JavaDocstrings(methods: seq<MethodDeclaration>) returns (docs: map<string, bool>)
    ensures docs == LastWins(methods, JavaEntry)
  {
    docs := map[];
    var i := 0;
    while i < |methods|
      invariant 0 <= i <= |methods|
      invariant docs == LastWins(methods[..i], JavaEntry)
    {
      assert methods[..i + 1][..i] == methods[..i];
      docs := docs[methods[i].name := methods[i].documentation != ""];
      i := i + 1;
    }
    assert methods[..i] == methods;
  }

  /**
   * `has_docstring` of a Python record: the flag of the last function named
   * `name` that `ast.walk` yields, and False if none has that name.
   */
  lemma PythonHasDocstring(walk: seq<Node>, name: string)
    ensures (forall i :: 0 <= i < |walk| && IsFunction(walk[i]) ==> walk[i].kind.name != name)
      ==> !DocFlag(LastWins(walk, PythonEntry), name)
    ensures forall i ::
              0 <= i < |walk| && IsFunction(walk[i]) && walk[i].kind.name == name
              && (forall j :: i < j < |walk| && IsFunction(walk[j]) ==> walk[j].kind.name != name)
              ==> DocFlag(LastWins(walk, PythonEntry), name) == (walk[i].kind.docstring != "")
  {
    if forall i :: 0 <= i < |walk| && IsFunction(walk[i]) ==> walk[i].kind.name != name {
      LastWinsAbsent(walk, PythonEntry, name);
    }
    forall i | 0 <= i < |walk| && IsFunction(walk[i]) && walk[i].kind.name == name
      && (forall j :: i < j < |walk| && IsFunction(walk[j]) ==> walk[j].kind.name != name)
      ensures DocFlag(LastWins(walk, PythonEntry), name) == (walk[i].kind.docstring != "")
    {
      LastWinsLast(walk, PythonEntry, name, i);
    }
  }

  // ---------------------------------------------------------------------------
  // Python records from radon's blocks.

  predicate IsFunctionBlock(b: Block) {
    b.FunctionBlock?
  }

  function FunctionBlocks(blocks: seq<Block>): seq<Block> {
    Filter(blocks, IsFunctionBlock)
  }

  /** The record `_analyze_python_code` builds for a function block. */
  function RadonRecord(b: Block, docs: map<string, bool>): (f: FunctionMetric)
    requires b.FunctionBlock?
    ensures f.name == b.name && f.lineno == b.lineno && f.complexity == b.complexity
    ensures f.kind.Some? && (f.kind == Some(Method) <==> b.isMethod)
    ensures f.hasDocstring == DocFlag(docs, b.name)
    ensures f.nloc.None? && f.tokenCount.None? && f.params.None? && f.lizardComplexity.None?
  {
    FunctionMetric(b.name, b.lineno, b.complexity, Some(if b.isMethod then Method else Function),
                   DocFlag(docs, b.name), None, None, None, None)
  }

  /** `fs` holds one record per function block, in order; class blocks give none. */
  ghost predicate RadonRecordsOf(fs: seq<FunctionMetric>, blocks: seq<Block>, docs: map<string, bool>) {
    var fb := FunctionBlocks(blocks);
    |fs| == |fb| && forall k :: 0 <= k < |fs| ==> fb[k].FunctionBlock? && fs[k] == RadonRecord(fb[k], docs)
  }

  method RadonRecords(blocks: seq<Block>, docs: map<string, bool>) returns (fs: seq<FunctionMetric>)
    ensures RadonRecordsOf(fs, blocks, docs)
  {
    fs := [];
    var i := 0;
    while i < |blocks|
      invariant 0 <= i <= |blocks|
      invariant RadonRecordsOf(fs, blocks[..i], docs)
    {
      assert blocks[..i + 1] == blocks[..i] + [blocks[i]];
      FilterSnoc(blocks[..i], blocks[i], IsFunctionBlock);
      var block := blocks[i];
      if block.FunctionBlock? {
        fs := fs + [RadonRecord(block, docs)];
      }
      i := i + 1;
    }
    assert blocks[..i] == blocks;
  }

  /** `fs` is the Python analysis of code whose foreign analyses are `facts`. */
  ghost predicate IsPythonAnalysis(r: FileMetrics, facts: PythonFacts) {
    && r.language == "python"
    && r.loc == (if facts.raw.Some? then facts.raw.value.loc else 0)
    && r.sloc == Some(if facts.raw.Some? then facts.raw.value.sloc else 0)
    && r.nloc.None?
    && r.maintainabilityIndex == Some(if facts.mi.Some? then facts.mi.value else 0.0)
    && (facts.tree.None? || facts.blocks.None? ==> r.functions == [])
    && (facts.tree.Some? && facts.blocks.Some? ==>
          RadonRecordsOf(r.functions, facts.blocks.value, LastWins(Walk(facts.tree.value), PythonEntry)))
  }

  /**
   * `_analyze_python_code`: the maintainability index and the line counts fall
   * back to 0 independently, and any failure of `ast.parse` or `cc_visit`
   * leaves the function list empty.
   */
  method AnalyzePythonCode(facts: PythonFacts) returns (r: FileMetrics)
    ensures IsPythonAnalysis(r, facts) && r.filePath.None?
  {
    var mi := if facts.mi.Some? then facts.mi.value else 0.0;
    var loc, sloc := 0, 0;
    if facts.raw.Some? {
      loc, sloc := facts.raw.value.loc, facts.raw.value.sloc;
    }
    var functions := [];
    if facts.tree.Some? {
      var docstrings := PythonDocstrings(Walk(facts.tree.value));
      if facts.blocks.Some? {
        functions := RadonRecords(facts.blocks.value, docstrings);
      }
    }
    r := FileMetrics(None, "python", loc, Some(sloc), None, Some(mi), functions);
  }

  /** `analyze_code`: only the tags "python" and "py", in any letter case, are analysed. */
  method AnalyzeCode(language: string, facts: PythonFacts) returns (r: Option<FileMetrics>)
    ensures r.Some? <==> Lower(language) == "python" || Lower(language) == "py"
    ensures r.Some? ==> IsPythonAnalysis(r.value, facts) && r.value.filePath.None?
  {
    var tag := Lower(language);
    if tag == "python" || tag == "py" {
      var result := AnalyzePythonCode(facts);
      r := Some(result);
    } else if tag == "java" {
      r := None;
    } else {
      r := None;
    }
  }

  // ---------------------------------------------------------------------------
  // The lizard merge.

  /** Same name and start lines less than 5 apart. */
  predicate Matches(f: FunctionMetric, lf: LizardFunction) {
    f.name == lf.name && -5 < f.lineno - lf.startLine < 5
  }

  function FirstMatchFrom(fs: seq<FunctionMetric>, lf: LizardFunction, i: nat): (r: Option<nat>)
    requires i <= |fs|
    decreases |fs| - i
    ensures r.Some? ==> i <= r.value < |fs| && Matches(fs[r.value], lf)
    ensures r.Some? ==> forall j :: i <= j < r.value ==> !Matches(fs[j], lf)
    ensures r.None? ==> forall j :: i <= j < |fs| ==> !Matches(fs[j], lf)
  {
    if i == |fs| then None
    else if Matches(fs[i], lf) then Some(i)
    else FirstMatchFrom(fs, lf, i + 1)
  }

  /** `next((f for f in functions if ...), None)`: the index of the first matching record. */
  function FirstMatch(fs: seq<FunctionMetric>, lf: LizardFunction): (r: Option<nat>)
    ensures r.Some? ==> r.value < |fs| && Matches(fs[r.value], lf)
    ensures r.Some? ==> forall j :: 0 <= j < r.value ==> !Matches(fs[j], lf)
    ensures r.None? ==> forall j :: 0 <= j < |fs| ==> !Matches(fs[j], lf)
  {
    FirstMatchFrom(fs, lf, 0)
  }

  /** Setting `nloc`, `token_count` and `cyclomatic_complexity_lizard` from a lizard function. */
  function Enrich(f: FunctionMetric, lf: LizardFunction): FunctionMetric {
    f.(nloc := Some(lf.nloc), tokenCount := Some(lf.tokenCount),
       lizardComplexity := Some(lf.cyclomaticComplexity))
  }

  function EnrichedBy(f: FunctionMetric, m: Option<LizardFunction>): FunctionMetric {
    if m.Some? then Enrich(f, m.value) else f
  }

  /** The last lizard function whose first match among the records is record `k`. */
  function LastMatcher(fs: seq<FunctionMetric>, lfs: seq<LizardFunction>, k: nat): Option<LizardFunction> {
    if lfs == [] then None
    else if FirstMatch(fs, lfs[|lfs| - 1]) == Some(k) then Some(lfs[|lfs| - 1])
    else LastMatcher(fs, lfs[..|lfs| - 1], k)
  }

  /** Records with the same names and start lines match the same lizard functions first. */
  lemma SameKeysSameMatch(a: seq<FunctionMetric>, b: seq<FunctionMetric>, lf: LizardFunction)
    requires |a| == |b|
    requires forall k :: 0 <= k < |a| ==> a[k].name == b[k].name && a[k].lineno == b[k].lineno
    ensures FirstMatch(a, lf) == FirstMatch(b, lf)
  {
    var ra, rb := FirstMatch(a, lf), FirstMatch(b, lf);
    if ra.Some? && rb.Some? {
      if ra.value < rb.value {
        assert Matches(b[ra.value], lf);
      } else if rb.value < ra.value {
        assert Matches(a[rb.value], lf);
      }
    } else if ra.Some? {
      assert Matches(b[ra.value], lf);
    } else if rb.Some? {
      assert Matches(a[rb.value], lf);
    }
  }

  /**
   * The merge loop of `analyze_file`: each lizard function, in order, enriches
   * the first record it matches. Record count, order and every other field stay
   * as they were; unmatched lizard functions are dropped.
   */
  method MergeLizard(fs: seq<FunctionMetric>, lfs: seq<LizardFunction>) returns (out: seq<FunctionMetric>)
    ensures |out| == |fs|
    ensures forall k :: 0 <= k < |fs| ==> out[k] == EnrichedBy(fs[k], LastMatcher(fs, lfs, k))
  {
    out := fs;
    var i := 0;
    while i < |lfs|
      invariant 0 <= i <= |lfs|
      invariant |out| == |fs|
      invariant forall k :: 0 <= k < |fs| ==> out[k] == EnrichedBy(fs[k], LastMatcher(fs, lfs[..i], k))
    {
      assert lfs[..i + 1][..i] == lfs[..i];
      var func := lfs[i];
      SameKeysSameMatch(out, fs, func);
      var found := FirstMatch(out, func);
      if found.Some? {
        var j := found.value;
        out := out[j := Enrich(out[j], func)];
      }
      i := i + 1;
    }
    assert lfs[..i] == lfs;
  }

  /** `out` is what the merge loop leaves of `fs`; no merge happens when lizard raised. */
  ghost predicate MergedFrom(out: seq<FunctionMetric>, fs: seq<FunctionMetric>, lizard: Option<LizardFile>) {
    if lizard.None? then out == fs
    else
      |out| == |fs|
      && forall k :: 0 <= k < |fs| ==> out[k] == EnrichedBy(fs[k], LastMatcher(fs, lizard.value.functionList, k))
  }

  /** Enrichment changes only `nloc`, `token_count` and `cyclomatic_complexity_lizard`. */
  lemma EnrichKeepsRecord(f: FunctionMetric, m: Option<LizardFunction>)
    ensures EnrichedBy(f, m).(nloc := f.nloc, tokenCount := f.tokenCount, lizardComplexity := f.lizardComplexity) == f
  {
  }

  /** A record that no lizard function matches first is left exactly as it was. */
  lemma {:induction false} UnmatchedRecordUnchanged(fs: seq<FunctionMetric>, lfs: seq<LizardFunction>, k: nat)
    requires forall i :: 0 <= i < |lfs| ==> FirstMatch(fs, lfs[i]) != Some(k)
    ensures LastMatcher(fs, lfs, k).None?
  {
    if lfs != [] {
      UnmatchedRecordUnchanged(fs, lfs[..|lfs| - 1], k);
    }
  }

  /** Of two records a lizard function matches, only the earlier one is enriched by it. */
  lemma FirstMatchWins(fs: seq<FunctionMetric>, lf: LizardFunction, i: nat, j: nat)
    requires i < j < |fs| && Matches(fs[i], lf) && Matches(fs[j], lf)
    ensures LastMatcher(fs, [lf], j).None?
    ensures LastMatcher(fs, [lf], i) == Some(lf) || (exists h :: 0 <= h < i && Matches(fs[h], lf))
  {
    assert [lf][..0] == [];
  }

  /** The 5-line window: start lines 4 apart match, 5 apart do not. */
  lemma MatchWindowBoundary(f: FunctionMetric, lf: LizardFunction)
    requires f.name == lf.name
    ensures f.lineno - lf.startLine == 4 || lf.startLine - f.lineno == 4 ==> Matches(f, lf)
    ensures f.lineno - lf.startLine == 5 || lf.startLine - f.lineno == 5 ==> !Matches(f, lf)
  {
  }

  // ---------------------------------------------------------------------------
  // Java records from lizard's functions.

  ghost predicate JavaRecordsOf(fs: seq<FunctionMetric>, lfs: seq<LizardFunction>, docs: map<string, bool>) {
    |fs| == |lfs|
    && forall k :: 0 <= k < |fs| ==>
      fs[k] == FunctionMetric(lfs[k].name, lfs[k].startLine, lfs[k].cyclomaticComplexity, None,
                              DocFlag(docs, lfs[k].name), Some(lfs[k].nloc), Some(lfs[k].tokenCount),
                              Some(|lfs[k].parameters|), None)
  }

  method JavaRecords(lfs: seq<LizardFunction>, docs: map<string, bool>) returns (fs: seq<FunctionMetric>)
    ensures JavaRecordsOf(fs, lfs, docs)
  {
    fs := [];
    var i := 0;
    while i < |lfs|
      invariant 0 <= i <= |lfs|
      invariant JavaRecordsOf(fs, lfs[..i], docs)
    {
      var func := lfs[i];
      fs := fs + [FunctionMetric(func.name, func.startLine, func.cyclomaticComplexity, None,
                                 DocFlag(docs, func.name), Some(func.nloc), Some(func.tokenCount),
                                 Some(|func.parameters|), None)];
      i := i + 1;
    }
    assert lfs[..i] == lfs;
  }

  /** `r` is the Java analysis of the file `filePath` whose foreign analyses are `facts`. */
  ghost predicate IsJavaAnalysis(r: FileMetrics, filePath: string, facts: FileFacts) {
    && r.filePath == Some(filePath) && r.language == "java"
    && r.sloc.None? && r.maintainabilityIndex.None?
    && (facts.lizard.None? || facts.lineCount.None? ==> r.loc == 0 && r.nloc == Some(0) && r.functions == [])
    && (facts.lizard.Some? && facts.lineCount.Some? ==>
          r.loc == facts.lineCount.value && r.nloc == Some(facts.lizard.value.nloc)
          && JavaRecordsOf(r.functions, facts.lizard.value.functionList,
                           if facts.javaMethods.Some? then LastWins(facts.javaMethods.value, JavaEntry) else map[]))
  }

  /**
   * `_analyze_java`: a javalang failure only empties the docstring map; a lizard
   * failure, or a failure to count the lines after it, leaves loc, nloc and the
   * function list at 0 and empty.
   */
  method AnalyzeJava(filePath: string, facts: FileFacts) returns (r: FileMetrics)
    ensures IsJavaAnalysis(r, filePath, facts)
  {
    var functions := [];
    var loc, nloc := 0, 0;
    var docstrings := map[];
    if facts.javaMethods.Some? {
      docstrings := JavaDocstrings(facts.javaMethods.value);
    }
    if facts.lizard.Some? && facts.lineCount.Some? {
      loc := facts.lineCount.value;
      nloc := facts.lizard.value.nloc;
      functions := JavaRecords(facts.lizard.value.functionList, docstrings);
    }
    r := FileMetrics(Some(filePath), "java", loc, None, Some(nloc), None, functions);
  }

  /**
   * `analyze_file`: dispatch on the exact extension. A `.py` file gets the
   * Python analysis with its path, then the lizard merge unless lizard raised;
   * a `.java` file gets the Java analysis; anything else gives the empty result.
   */
  method AnalyzeFile(filePath: string, facts: FileFacts) returns (r: Option<FileMetrics>)
    ensures r.Some? <==> Ext(filePath) == ".py" || Ext(filePath) == ".java"
    ensures Ext(filePath) == ".py" ==>
      r.value.filePath == Some(filePath)
      && exists before :: MergedFrom(r.value.functions, before, facts.lizard)
           && IsPythonAnalysis(r.value.(functions := before), facts.python)
    ensures Ext(filePath) == ".java" ==> IsJavaAnalysis(r.value, filePath, facts)
  {
    var ext := Ext(filePath);
    if ext == ".py" {
      var result := AnalyzePythonCode(facts.python);
      result := result.(filePath := Some(filePath));
      ghost var before := result.functions;
      if facts.lizard.Some? {
        var merged := MergeLizard(result.functions, facts.lizard.value.functionList);
        result := result.(functions := merged);
      }
      assert MergedFrom(result.functions, before, facts.lizard);
      assert IsPythonAnalysis(result.(functions := before), facts.python);
      r := Some(result);
    } else if ext == ".java" {
      var result := AnalyzeJava(filePath, facts);
      r := Some(result);
    } else {
      r := None;
    }
  }
}
