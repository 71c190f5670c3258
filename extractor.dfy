/**
 * `CodeExtractor`: code–docstring records straight from `.py` and `.java`
 * source files, without the scraped header. `read` gives a file's text (None
 * when it cannot be opened or decoded) and the parsers give the parse tree
 * (None when parsing raises); a failing file contributes no records.
 */
module Extractor {
  import opened Strings
  import opened Wrappers
  import opened Paths
  import opened PyAst
  import opened JavaAst

  /** One extracted record: no code, but the line the definition starts on. */
  datatype Record = Record(language: string, filePath: string, name: string, docstring: string, lineno: int)

  function PythonRecord(path: string, n: Node): Record
    requires IsFunction(n)
  {
    Record("python", path, n.kind.name, n.kind.docstring, n.kind.lineno)
  }

  /** The records the loop of `extract_python` appends for `nodes`, in order. */
  function PythonRecordsOf(path: string, nodes: seq<Node>): (r: seq<Record>)
    ensures |r| <= |nodes|
    ensures forall k :: 0 <= k < |r| ==> r[k].language == "python" && r[k].filePath == path && r[k].docstring != ""
  {
    if nodes == [] then []
    else
      var last := nodes[|nodes| - 1];
      PythonRecordsOf(path, nodes[..|nodes| - 1]) + (if IsDocumented(last) then [PythonRecord(path, last)] else [])
  }

  /** One record per documented function of the walk and no other. */
  lemma {:induction false} PythonRecordsOfDocumented(path: string, nodes: seq<Node>)
    ensures forall i :: 0 <= i < |nodes| && IsDocumented(nodes[i]) ==>
      PythonRecord(path, nodes[i]) in PythonRecordsOf(path, nodes)
    ensures forall r :: r in PythonRecordsOf(path, nodes) ==>
      exists i :: 0 <= i < |nodes| && IsDocumented(nodes[i]) && r == PythonRecord(path, nodes[i])
  {
    if nodes != [] {
      var init := nodes[..|nodes| - 1];
      PythonRecordsOfDocumented(path, init);
      forall r | r in PythonRecordsOf(path, init)
        ensures exists i :: 0 <= i < |nodes| && IsDocumented(nodes[i]) && r == PythonRecord(path, nodes[i])
      {
        var i :| 0 <= i < |init| && IsDocumented(init[i]) && r == PythonRecord(path, init[i]);
        assert nodes[i] == init[i];
      }
      forall i | 0 <= i < |init| && IsDocumented(nodes[i])
        ensures PythonRecord(path, nodes[i]) in PythonRecordsOf(path, nodes)
      {
        assert nodes[i] == init[i];
      }
    }
  }

  /** A parsed file gives one record per documented function anywhere in its tree, nested ones included, and no other. */
  lemma PythonRecordsOfTree(path: string, tree: Node)
    ensures forall n :: n in Preorder(tree) && IsDocumented(n) ==> PythonRecord(path, n) in PythonRecordsOf(path, Walk(tree))
    ensures forall r :: r in PythonRecordsOf(path, Walk(tree)) ==>
      exists n :: n in Preorder(tree) && IsDocumented(n) && r == PythonRecord(path, n)
  {
    var walk := Walk(tree);
    WalkNodes(tree);
    PythonRecordsOfDocumented(path, walk);
    forall n | n in Preorder(tree) && IsDocumented(n)
      ensures PythonRecord(path, n) in PythonRecordsOf(path, walk)
    {
      var i :| 0 <= i < |walk| && walk[i] == n;
    }
    forall r | r in PythonRecordsOf(path, walk)
      ensures exists n :: n in Preorder(tree) && IsDocumented(n) && r == PythonRecord(path, n)
    {
      var i :| 0 <= i < |walk| && IsDocumented(walk[i]) && r == PythonRecord(path, walk[i]);
      assert walk[i] in walk;
    }
  }

  /** What `extract_python` returns for the file `path` whose text is `content`. */
  function PythonRecords(path: string, content: Option<string>, parse: string -> Option<Node>): seq<Record> {
    if content.None? then []
    else
      match parse(content.value)
      case None => []
      case Some(tree) => PythonRecordsOf(path, Walk(tree))
  }

  method ExtractPython(path: string, content: Option<string>, parse: string -> Option<Node>) returns (pairs: seq<Record>)
    ensures pairs == PythonRecords(path, content, parse)
  {
    if content.None? {
      return [];
    }
    var tree := parse(content.value);
    if tree.None? {
      return [];
    }
    var walk := Walk(tree.value);
    pairs := [];
    for i := 0 to |walk|
      invariant pairs == PythonRecordsOf(path, walk[..i])
    {
      assert walk[..i + 1][..i] == walk[..i];
      var node := walk[i];
      if IsFunction(node) && node.kind.docstring != "" {
        pairs := pairs + [Record("python", path, node.kind.name, node.kind.docstring, node.kind.lineno)];
      }
    }
    assert walk[..|walk|] == walk;
  }

  /** A documented method's record; its line is 0 when javalang gives no position. */
  function JavaRecord(path: string, m: MethodDeclaration): Record {
    Record("java", path, m.name, m.documentation, if m.position.Some? then m.position.value else 0)
  }

  function JavaRecordsOf(path: string, methods: seq<MethodDeclaration>): (r: seq<Record>)
    ensures |r| <= |methods|
    ensures forall k :: 0 <= k < |r| ==>
      r[k].language == "java" && r[k].filePath == path && r[k].docstring != "" && r[k].lineno >= 0
  {
    if methods == [] then []
    else
      var last := methods[|methods| - 1];
      JavaRecordsOf(path, methods[..|methods| - 1]) + (if last.documentation != "" then [JavaRecord(path, last)] else [])
  }

  /** One record per documented method declaration and no other. */
  lemma {:induction false} JavaRecordsOfDocumented(path: string, methods: seq<MethodDeclaration>)
    ensures forall i :: 0 <= i < |methods| && methods[i].documentation != "" ==>
      JavaRecord(path, methods[i]) in JavaRecordsOf(path, methods)
    ensures forall r :: r in JavaRecordsOf(path, methods) ==>
      exists i :: 0 <= i < |methods| && methods[i].documentation != "" && r == JavaRecord(path, methods[i])
  {
    if methods != [] {
      var init := methods[..|methods| - 1];
      JavaRecordsOfDocumented(path, init);
      forall r | r in JavaRecordsOf(path, init)
        ensures exists i :: 0 <= i < |methods| && methods[i].documentation != "" && r == JavaRecord(path, methods[i])
      {
        var i :| 0 <= i < |init| && init[i].documentation != "" && r == JavaRecord(path, init[i]);
        assert methods[i] == init[i];
      }
      forall i | 0 <= i < |init| && methods[i].documentation != ""
        ensures JavaRecord(path, methods[i]) in JavaRecordsOf(path, methods)
      {
        assert methods[i] == init[i];
      }
    }
  }

  /** What `extract_java` returns for the file `path` whose text is `content`. */
  function JavaRecords(path: string, content: Option<string>, parse: string -> Option<seq<MethodDeclaration>>)
    : seq<Record>
  {
    if content.None? then []
    else
      match parse(content.value)
      case None => []
      case Some(methods) => JavaRecordsOf(path, methods)
  }

  method ExtractJava(path: string, content: Option<string>, parse: string -> Option<seq<MethodDeclaration>>)
    returns (pairs: seq<Record>)
    ensures pairs == JavaRecords(path, content, parse)
  {
    if content.None? {
      return [];
    }
    var tree := parse(content.value);
    if tree.None? {
      return [];
    }
    var methods := tree.value;
    pairs := [];
    for i := 0 to |methods|
      invariant pairs == JavaRecordsOf(path, methods[..i])
    {
      assert methods[..i + 1][..i] == methods[..i];
      var node := methods[i];
      if node.documentation != "" {
        var line := if node.position.Some? then node.position.value else 0;
        pairs := pairs + [Record("java", path, node.name, node.documentation, line)];
      }
    }
    assert methods[..|methods|] == methods;
  }

  /** The records of the `.py` files the glob found, skipping virtual environments and caches. */
  function PythonResults(files: seq<string>, read: string -> Option<string>, parse: string -> Option<Node>)
    : (r: seq<Record>)
    ensures forall k :: 0 <= k < |r| ==>
      r[k].language == "python" && r[k].filePath in files && !Excluded(r[k].filePath)
  {
    if files == [] then []
    else
      var init := files[..|files| - 1];
      var f := files[|files| - 1];
      var r := PythonResults(init, read, parse) + (if Excluded(f) then [] else PythonRecords(f, read(f), parse));
      assert forall g :: g in init ==> g in files;
      r
  }

  /** The records of the `.java` files the glob found; these are not filtered. */
  function JavaResults(files: seq<string>, read: string -> Option<string>,
                       parse: string -> Option<seq<MethodDeclaration>>): (r: seq<Record>)
    ensures forall k :: 0 <= k < |r| ==> r[k].language == "java" && r[k].filePath in files
  {
    if files == [] then []
    else
      var init := files[..|files| - 1];
      var f := files[|files| - 1];
      var r := JavaResults(init, read, parse) + JavaRecords(f, read(f), parse);
      assert forall g :: g in init ==> g in files;
      r
  }

  /** The first glob loop of `extract_from_directory`. */
  method ExtractPythonFiles(pyFiles: seq<string>, read: string -> Option<string>, pyParse: string -> Option<Node>)
    returns (results: seq<Record>)
    ensures results == PythonResults(pyFiles, read, pyParse)
  {
    results := [];
    for i := 0 to |pyFiles|
      invariant results == PythonResults(pyFiles[..i], read, pyParse)
    {
      var path := pyFiles[i];
      assert pyFiles[..i + 1][..i] == pyFiles[..i];
      assert pyFiles[..i + 1][i] == path;
      if !(Contains(path, "venv") || Contains(path, "__pycache__")) {
        var records := ExtractPython(path, read(path), pyParse);
        results := results + records;
      }
    }
    assert pyFiles[..|pyFiles|] == pyFiles;
  }

  /** The second glob loop of `extract_from_directory`. */
  method ExtractJavaFiles(javaFiles: seq<string>, read: string -> Option<string>,
                          javaParse: string -> Option<seq<MethodDeclaration>>)
    returns (results: seq<Record>)
    ensures results == JavaResults(javaFiles, read, javaParse)
  {
    results := [];
    for i := 0 to |javaFiles|
      invariant results == JavaResults(javaFiles[..i], read, javaParse)
    {
      var path := javaFiles[i];
      assert javaFiles[..i + 1][..i] == javaFiles[..i];
      assert javaFiles[..i + 1][i] == path;
      var records := ExtractJava(path, read(path), javaParse);
      results := results + records;
    }
    assert javaFiles[..|javaFiles|] == javaFiles;
  }

  /**
   * `extract_from_directory`: `pyFiles` and `javaFiles` are what the two
   * recursive globs found. All Python records come first, each from a file
   * outside a virtual environment or cache; the Java records follow, from any
   * Java file found.
   */
  method ExtractFromDirectory(pyFiles: seq<string>, javaFiles: seq<string>, read: string -> Option<string>,
                              pyParse: string -> Option<Node>, javaParse: string -> Option<seq<MethodDeclaration>>)
    returns (results: seq<Record>)
    ensures results == PythonResults(pyFiles, read, pyParse) + JavaResults(javaFiles, read, javaParse)
  {
    var python := ExtractPythonFiles(pyFiles, read, pyParse);
    var java := ExtractJavaFiles(javaFiles, read, javaParse);
    results := python + java;
  }

  /** Python records precede Java records, and a Python record never comes from an excluded path. */
  lemma ResultsOrdered(pyFiles: seq<string>, javaFiles: seq<string>, read: string -> Option<string>,
                       pyParse: string -> Option<Node>, javaParse: string -> Option<seq<MethodDeclaration>>)
    ensures var r := PythonResults(pyFiles, read, pyParse) + JavaResults(javaFiles, read, javaParse);
      (forall i, j :: 0 <= i < j < |r| && r[i].language == "java" ==> r[j].language == "java")
      && (forall k :: 0 <= k < |r| && r[k].language == "python" ==> !Excluded(r[k].filePath))
  {
    var py := PythonResults(pyFiles, read, pyParse);
    var r := py + JavaResults(javaFiles, read, javaParse);
    forall i, j | 0 <= i < j < |r| && r[i].language == "java" ensures r[j].language == "java" {
      assert i >= |py|;
    }
  }

  /** A record is a Python result exactly when it is a record of a found file outside `venv`/`__pycache__`. */
  lemma {:induction false} PythonResultsMember(files: seq<string>, read: string -> Option<string>, parse: string -> Option<Node>)
    ensures forall x :: x in PythonResults(files, read, parse) <==>
      exists f :: f in files && !Excluded(f) && x in PythonRecords(f, read(f), parse)
  {
    if files != [] {
      var init := files[..|files| - 1];
      var last := files[|files| - 1];
      PythonResultsMember(init, read, parse);
      var tail := if Excluded(last) then [] else PythonRecords(last, read(last), parse);
      assert PythonResults(files, read, parse) == PythonResults(init, read, parse) + tail;
      forall x | x in PythonResults(files, read, parse)
        ensures exists f :: f in files && !Excluded(f) && x in PythonRecords(f, read(f), parse)
      {
        if x in PythonResults(init, read, parse) {
          var f :| f in init && !Excluded(f) && x in PythonRecords(f, read(f), parse);
          ElementOfInit(files, f);
        }
      }
      forall x, f | f in files && !Excluded(f) && x in PythonRecords(f, read(f), parse)
        ensures x in PythonResults(files, read, parse)
      {
        if f != last {
          InitHasOthers(files, f);
        }
      }
    }
  }

  /** A record is a Java result exactly when it is a record of a found Java file. */
  lemma {:induction false} JavaResultsMember(files: seq<string>, read: string -> Option<string>,
                                             parse: string -> Option<seq<MethodDeclaration>>)
    ensures forall x :: x in JavaResults(files, read, parse) <==>
      exists f :: f in files && x in JavaRecords(f, read(f), parse)
  {
    if files != [] {
      var init := files[..|files| - 1];
      var last := files[|files| - 1];
      JavaResultsMember(init, read, parse);
      assert JavaResults(files, read, parse) == JavaResults(init, read, parse) + JavaRecords(last, read(last), parse);
      forall x | x in JavaResults(files, read, parse)
        ensures exists f :: f in files && x in JavaRecords(f, read(f), parse)
      {
        if x in JavaResults(init, read, parse) {
          var f :| f in init && x in JavaRecords(f, read(f), parse);
          ElementOfInit(files, f);
        }
      }
      forall x, f | f in files && x in JavaRecords(f, read(f), parse)
        ensures x in JavaResults(files, read, parse)
      {
        if f != last {
          InitHasOthers(files, f);
        }
      }
    }
  }

  lemma ElementOfInit(files: seq<string>, f: string)
    requires files != [] && f in files[..|files| - 1]
    ensures f in files
  {
    var i :| 0 <= i < |files| - 1 && files[..|files| - 1][i] == f;
    assert files[i] == f;
  }

  lemma InitHasOthers(files: seq<string>, f: string)
    requires f in files && f != files[|files| - 1]
    ensures f in files[..|files| - 1]
  {
    var i :| 0 <= i < |files| && files[i] == f;
    assert files[..|files| - 1][i] == f;
  }

  /**
   * `extract_from_directory` returns exactly the records of the found `.py`
   * files outside `venv`/`__pycache__` and of every found `.java` file.
   */
  lemma DirectoryMember(pyFiles: seq<string>, javaFiles: seq<string>, read: string -> Option<string>,
                        pyParse: string -> Option<Node>, javaParse: string -> Option<seq<MethodDeclaration>>)
    ensures forall x :: x in PythonResults(pyFiles, read, pyParse) + JavaResults(javaFiles, read, javaParse) <==>
      (exists f :: f in pyFiles && !Excluded(f) && x in PythonRecords(f, read(f), pyParse))
      || (exists f :: f in javaFiles && x in JavaRecords(f, read(f), javaParse))
  {
    PythonResultsMember(pyFiles, read, pyParse);
    JavaResultsMember(javaFiles, read, javaParse);
  }

  /** A `.py` file on an excluded path contributes nothing: none of its records is in the result. */
  lemma ExcludedPythonSkipped(pyFiles: seq<string>, javaFiles: seq<string>, read: string -> Option<string>,
                              pyParse: string -> Option<Node>, javaParse: string -> Option<seq<MethodDeclaration>>)
    ensures forall f, x :: Excluded(f) && x in PythonRecords(f, read(f), pyParse) ==>
      x !in PythonResults(pyFiles, read, pyParse) + JavaResults(javaFiles, read, javaParse)
  {
    forall f, x | Excluded(f) && x in PythonRecords(f, read(f), pyParse)
      ensures x !in PythonResults(pyFiles, read, pyParse) + JavaResults(javaFiles, read, javaParse)
    {
      var content := read(f);
      var tree := pyParse(content.value);
      var recs := PythonRecordsOf(f, Walk(tree.value));
      var k :| 0 <= k < |recs| && recs[k] == x;
      assert x.language == "python" && x.filePath == f;
    }
  }

  /** Unlike Python files, every Java file found is extracted, on whatever path, `venv` and `__pycache__` included. */
  lemma JavaNotExcluded(pyFiles: seq<string>, javaFiles: seq<string>, read: string -> Option<string>,
                        pyParse: string -> Option<Node>, javaParse: string -> Option<seq<MethodDeclaration>>)
    ensures forall f, x :: f in javaFiles && x in JavaRecords(f, read(f), javaParse) ==>
      x in PythonResults(pyFiles, read, pyParse) + JavaResults(javaFiles, read, javaParse)
  {
    JavaResultsMember(javaFiles, read, javaParse);
  }
}
