# CodeWhisper core, modelled in Dafny

CodeWhisper collects code/docstring pairs and code metrics from Python and
Java sources, and prepares datasets for a documentation model. This project
models the six modules of `backend/core` and proves properties of the model:

- **metrics** (`metrics.py`): the cyclomatic-complexity visitor. It is a class
  whose `complexity` field the visit methods raise. It is proved equal to a
  recursive score and to a sum of per-node gains over `ast.walk`.
- **analyzer** (`analyzer.py`): per-file metrics. Radon, lizard and javalang
  are not modelled; their outputs are input records. The model covers the
  docstring dictionaries ("last definition wins"), the radon records, the
  extension dispatch, and the lizard merge (for each lizard function, the
  first record with the same name within 5 lines is enriched).
- **data_processor** (`data_processor.py`): the dataset pipeline, covering
  - the file filter and the scraped-header parser;
  - pair extraction;
  - grouping by file;
  - the two-stage train/validation/test split by file;
  - flattening;
  - the renaming augmentation of training pairs only;
  - the `VariableRenamer` transformer, which is in module `Renamer`: a class
    with `mapping` and `count` fields, proved equal to a state-threading
    traversal.
- **extractor** (`extractor.py`): code/docstring records straight from `.py`
  and `.java` files.
- **scanner** (`scanner.py`): a top-down directory walk that prunes hidden,
  `venv` and `node_modules` subdirectories and yields files with a supported
  extension.
- **github_scraper** (`github_scraper.py`): the FIFO walk over a
  repository's contents, the language tag, the safe file name and the
  header. The header is proved to be read back by the header parser of
  `data_processor`.

The Python syntax tree is a uniform `Node(kind, children)` (module `PyAst`).
`ast.walk` is modelled as the breadth-first queue it is. `ast.parse`,
`ast.unparse`, javalang, the reading of files, the directory listings and the
random permutation are function-typed parameters or input records. Python
`str` methods are modelled over `seq<char>` (module `Strings`), and
`os.path.splitext` and `os.path.join` in module `Paths`.

Points where the code may surprise a reader:

- The renamer uses one counter for both `var_N` and `arg_N`, so a function's
  names are numbered in one stream.
- Only the identifier `self` is exempt from renaming; a method whose receiver
  is called anything else has it renamed.
- The renamer's mapping is per code snippet, and a name read before its first
  binding keeps its name, while later reads are renamed
  (`Renamer.LoadBeforeStore`).
- The lizard match window is a line difference strictly below 5, so 4 merges
  and 5 does not (`Analyzer.MatchWindowBoundary`).

## Model

| member | source | states |
|---|---|---|
| Metrics.ComplexityVisitor.constructor | backend/core/metrics.py:4-5 | the base complexity is 1 |
| Metrics.ComplexityVisitor.Visit | backend/core/metrics.py:7-42 | visiting a node raises `complexity` by exactly the node's score: its own gain plus its children's |
| Metrics.ComplexityVisitor.GenericVisit | backend/core/metrics.py:9 | visiting the children in field order adds the sum of their scores |
| Metrics.CalculateCyclomaticComplexity | backend/core/metrics.py:44-51 | a syntax error gives 0; otherwise 1 plus the tree's score, which is at least 1 for a well-formed tree |
| Metrics.HandlerCount | backend/core/metrics.py:28-30 | a `try` adds at most one per child, one per except handler |
| Metrics.Score | backend/core/metrics.py:40-42 | because every boolean operation has at least two operands, no tree lowers the complexity |
| Metrics.ScoreSeqConcat | backend/core/metrics.py:9 | the scores of sibling statements add up |
| Metrics.ScoreIsGainOverWalk | backend/core/metrics.py:3-42 | the depth-first visitor's score equals the sum of the gains of the nodes `ast.walk` yields |
| Metrics.WalkQueueGain | backend/core/metrics.py:3-42 | the gains along the breadth-first walk of a queue equal the queue's total depth-first score |
| Metrics.DecisionFreeScoresZero | backend/core/metrics.py:44-49 | a tree without decision points has complexity exactly 1 |
| Metrics.AddOneBranch | backend/core/metrics.py:7-38 | adding one `if`/`for`/`while`/`with`/`async with` with a decision-free body raises the score by exactly 1 |
| Metrics.AddTry | backend/core/metrics.py:28-30 | a `try` adds exactly its number of except handlers, so try/finally adds nothing |
| Metrics.BoolOpAddsOperandsMinusOne | backend/core/metrics.py:40-42 | a boolean operation over N decision-free operands adds N - 1 |
| Metrics.FunctionBodiesAccumulate | backend/core/metrics.py:19-26 | a function definition adds nothing itself, but the decisions in its body count |
| PyAst.WalkQueue | backend/core/analyzer.py:45 | `ast.walk` yields one entry per node of the queued trees |
| PyAst.WalkQueueNodes | backend/core/analyzer.py:45 | the breadth-first walk of a queue yields the same nodes, as often, as the depth-first flattening of the queued trees |
| PyAst.WalkNodes | backend/core/extractor.py:32 | `ast.walk(tree)` yields exactly the nodes of the tree with their multiplicities, so a node is yielded iff it occurs in the tree |
| Analyzer.LastWinsLast | backend/core/analyzer.py:44-47 | a name's docstring flag is the one of its last definition in walk order |
| Analyzer.LastWinsAbsent | backend/core/analyzer.py:44-47 | a name never defined is absent from the dictionary |
| Analyzer.PythonDocstrings | backend/core/analyzer.py:44-47 | the loop builds exactly the last-wins dictionary over the walk |
| Analyzer.JavaDocstrings | backend/core/analyzer.py:109-111 | the loop builds exactly the last-wins dictionary over the method declarations |
| Analyzer.PythonHasDocstring | backend/core/analyzer.py:44-57 | an undefined name gets `has_docstring` False; otherwise the flag comes from its last definition in walk order |
| Analyzer.RadonRecord | backend/core/analyzer.py:52-58 | a record copies name, line and complexity, always has a type, which is `method` iff the radon block is a method and `function` otherwise, takes its docstring flag from the dictionary, and has no lizard fields |
| Analyzer.RadonRecords | backend/core/analyzer.py:49-59 | one record per function block (classes skipped), in order |
| Analyzer.AnalyzePythonCode | backend/core/analyzer.py:23-69 | a failing maintainability index gives 0 and failing raw metrics give 0/0; a failing parse or radon pass gives no functions but keeps the file metrics |
| Analyzer.AnalyzeCode | backend/core/analyzer.py:11-21 | a result exists iff the lower-cased language is "python" or "py" ("java" and others give the empty result) |
| Analyzer.FirstMatchFrom | backend/core/analyzer.py:84 | the first record at or after `i` that has the lizard function's name and a line within 5, or none |
| Analyzer.FirstMatch | backend/core/analyzer.py:84 | `next(...)`: the first matching record, and no record before it matches |
| Analyzer.MergeLizard | backend/core/analyzer.py:83-88 | the merge keeps the list's length; each record is enriched by the last lizard function whose first match it is, or left unchanged |
| Analyzer.SameKeysSameMatch | backend/core/analyzer.py:84 | matching only reads names and line numbers, so enriching earlier records does not change later matches |
| Analyzer.EnrichKeepsRecord | backend/core/analyzer.py:86-88 | enrichment touches only `nloc`, `token_count` and the lizard complexity |
| Analyzer.UnmatchedRecordUnchanged | backend/core/analyzer.py:83-88 | a record that is no lizard function's first match is left as it was |
| Analyzer.FirstMatchWins | backend/core/analyzer.py:84-88 | when two records match, only the earlier is enriched |
| Analyzer.MatchWindowBoundary | backend/core/analyzer.py:84 | a line difference of 4 matches and one of 5 does not |
| Analyzer.JavaRecords | backend/core/analyzer.py:119-128 | one record per lizard function, in order, with its parameter count and its javalang docstring flag |
| Analyzer.AnalyzeJava | backend/core/analyzer.py:98-138 | a lizard or read failure gives loc 0, nloc 0 and no functions; a javalang failure only clears the docstring flags |
| Analyzer.AnalyzeFile | backend/core/analyzer.py:71-96 | a result exists iff the extension is exactly `.py` or `.java`; for `.py` it is the Python analysis with the path, merged with lizard unless lizard raised |
| Paths.Ext | backend/core/scanner.py:15 | `splitext`'s extension is empty or starts at the last dot of the last component, and holds no further dot or separator |
| Paths.ExtNonEmpty | backend/core/scanner.py:15 | the extension is non-empty iff the last dot has a non-dot character before it in the last component (so `.bashrc` has none and `a.py` has `.py`), and it then runs from that dot to the end |
| Paths.ExtOfJoin | backend/core/scanner.py:14-17 | joining a file name under a directory keeps its extension |
| Strings.SplitLinesOfJoin | backend/core/data_processor.py:130-139 | joining break-free lines with "\n" and splitting again gives them back when the last is nonempty |
| Strings.StripTrims | backend/core/data_processor.py:116 | `strip()` gives `s` with exactly a leading and a trailing run of whitespace removed |
| Strings.FindFrom | backend/core/data_processor.py:106 | the first occurrence of the pattern, or none when there is none |
| Strings.ReplaceCharPointwise | backend/core/github_scraper.py:42 | replacing one character by another rewrites exactly its occurrences and keeps the length |
| Strings.NatToStringInjective | backend/core/data_processor.py:226 | distinct counters give distinct `var_N`/`arg_N` names |
| Seqs.Filter | backend/core/data_processor.py:87 | a comprehension keeps the elements satisfying the condition and only those |
| Renamer.VariableRenamer.constructor | backend/core/data_processor.py:219-221 | an empty mapping and a zero counter |
| Renamer.VariableRenamer.VisitName | backend/core/data_processor.py:223-231 | a `Store`/`Param` name not yet mapped (and not `self`) gets `var_<count>`; a mapped name is rewritten; the state is the reference traversal's |
| Renamer.VariableRenamer.VisitArg | backend/core/data_processor.py:233-241 | an unmapped parameter other than `self` gets `arg_<count>`; the annotation is kept and not visited |
| Renamer.VariableRenamer.Visit | backend/core/data_processor.py:218-241 | the tree and the state after a visit are those of the reference traversal, and the state stays consistent |
| Renamer.VariableRenamer.GenericVisit | backend/core/data_processor.py:218 | other nodes have their children transformed in field order, with the state threaded left to right |
| Renamer.RenameTree | backend/core/data_processor.py:205-207 | a new renamer's visit of the whole tree is the reference traversal from an empty mapping |
| Renamer.RegisterKeepsConsistent | backend/core/data_processor.py:225-236 | registering a name keeps the mapping injective, numbered below the counter, and free of `self` |
| Renamer.RenameNodeConsistent | backend/core/data_processor.py:218-241 | the whole traversal keeps that invariant |
| Renamer.RenameNodeExtends | backend/core/data_processor.py:223-241 | existing entries never change, and the keys gained are exactly the identifiers bound in the tree |
| Renamer.RenameNodeKeepsSkeleton | backend/core/data_processor.py:223-241 | only identifiers change: kinds, contexts, order and annotations stay |
| Renamer.UnmappedLoadKept | backend/core/data_processor.py:223-231 | a read of a name not in the mapping returns the node unchanged and leaves mapping and counter alone |
| Renamer.MappedNameRewritten | backend/core/data_processor.py:229-230 | an occurrence of a mapped name in any context takes the mapped name, with mapping and counter unchanged |
| Renamer.FirstBindingRenamed | backend/core/data_processor.py:224-230 | the first `Store`/`Param` occurrence of a name other than `self` becomes `var_<count>`, is added to the mapping and advances the counter by one |
| Renamer.FirstArgRenamed | backend/core/data_processor.py:233-240 | the first occurrence of a parameter other than `self` becomes `arg_<count>`, keeps its annotation child, is added to the mapping and advances the counter by one |
| Renamer.MappedArgRewritten | backend/core/data_processor.py:238-240 | a parameter already mapped takes its mapped name, with mapping and counter unchanged |
| Renamer.SelfArgKept | backend/core/data_processor.py:234 | a `self` parameter is kept while `self` is not mapped |
| Renamer.SelfNeverRenamed | backend/core/data_processor.py:225 | `self` is kept in every context while it is not mapped |
| Renamer.LoadBeforeStore | backend/core/data_processor.py:223-231 | in any state, a read of a not-yet-bound name keeps its name while the binding after it becomes `var_<count>` |
| Renamer.LoadBeforeStoreKeepsName | backend/core/data_processor.py:223-231 | the instance from a fresh renamer: `x; x = 1` becomes `x; var_0 = 1` |
| Renamer.FreshRenaming | backend/core/data_processor.py:219-241 | from an empty mapping, the bound names are renamed injectively, `self` never, and the counter equals the number of names |
| DataProcessor.GetFiles | backend/core/data_processor.py:83-87 | the found `.txt` paths, in order, without those containing `venv` or `__pycache__` |
| DataProcessor.LanguageOfLastTag | backend/core/data_processor.py:113-117 | the last `Language: ` line decides the language |
| DataProcessor.LanguageOfUntagged | backend/core/data_processor.py:113-117 | without a `Language: ` line the language is "" |
| DataProcessor.ScrapedFieldsSplit | backend/core/data_processor.py:106-118 | the header and code rejoin to the file at its first blank line; no blank line or an unreadable file gives three empty fields |
| DataProcessor.ParseScrapedFile | backend/core/data_processor.py:89-120 | the parsed fields are those of the first-blank-line split with the last language tag |
| DataProcessor.DeclaredLanguage | backend/core/data_processor.py:113-117 | the loop over the header lines computes the language of the last `Language: ` line |
| DataProcessor.PySlice | backend/core/data_processor.py:138 | Python slicing: clamped, and the ordinary subsequence for in-range bounds |
| DataProcessor.PythonPairsOf | backend/core/data_processor.py:132-148 | every pair is Python, from the file, carries the header, has a nonempty docstring and is not augmented |
| DataProcessor.PythonPairsOfDocumented | backend/core/data_processor.py:132-148 | there is one pair per documented function of the walk and no other |
| DataProcessor.ExtractedCodeLines | backend/core/data_processor.py:136-139 | a pair's code splits back into exactly lines `lineno` to `end_lineno` of the source |
| DataProcessor.ExtractPython | backend/core/data_processor.py:122-151 | the loop computes the pairs of the header-tagged Python file; a wrong language, empty code or a parse error gives none |
| DataProcessor.JavaPairsOf | backend/core/data_processor.py:162-171 | every pair is Java, from the file, with a nonempty docstring and the placeholder code |
| DataProcessor.JavaPairsOfDocumented | backend/core/data_processor.py:162-171 | there is one pair per documented method declaration and no other |
| DataProcessor.ExtractJava | backend/core/data_processor.py:153-174 | the loop computes the pairs of the header-tagged Java file; a wrong language, empty code or a parse error gives none |
| DataProcessor.FilePairs | backend/core/data_processor.py:36-42 | a file's pairs carry its path and its header language, and none is augmented |
| DataProcessor.GroupByFileSound | backend/core/data_processor.py:31-45 | the dictionary holds exactly the files with pairs, each key once and in first-seen order, each mapped to its own pairs |
| DataProcessor.GroupFiles | backend/core/data_processor.py:31-45 | the loop over the files builds exactly the grouping of their pairs |
| DataProcessor.SplitFiles | backend/core/data_processor.py:50-64 | every file of the three sets is one of the grouped files |
| DataProcessor.TrainTestSplitPartition | backend/core/data_processor.py:58 | the shuffled split of distinct items is a partition into disjoint, duplicate-free parts |
| DataProcessor.SplitFilesPartition | backend/core/data_processor.py:50-64 | a partition, with all files in training below 3 files; otherwise a fifth (rounded up) is held out, at least one of them for validation |
| DataProcessor.FewFilesNoTestSet | backend/core/data_processor.py:58-64 | 3 to 5 files give one validation file and no test file |
| DataProcessor.FlattenOf | backend/core/data_processor.py:176-180 | the flattened list holds exactly the pairs of the listed files |
| DataProcessor.FlattenData | backend/core/data_processor.py:176-180 | the loop builds that flattening |
| DataProcessor.AugmentPythonRename | backend/core/data_processor.py:200-211 | the code is unparsed after renaming, or returned unchanged when it does not parse |
| DataProcessor.AugCopies | backend/core/data_processor.py:186-197 | every copy is a Python pair with renamed code that differs, flagged augmented, otherwise equal to its original |
| DataProcessor.AugCopiesComplete | backend/core/data_processor.py:186-197 | every Python pair whose renamed code differs gets its copy |
| DataProcessor.AugmentedCopyRenamesOnly | backend/core/data_processor.py:190-195 | a copy's code is the unparsing of a tree that has its original's skeleton |
| DataProcessor.AugmentData | backend/core/data_processor.py:182-198 | the originals come first, followed by the copies in order |
| DataProcessor.Process | backend/core/data_processor.py:16-81 | the three datasets are the pipeline's: group, split, flatten, augment the training set |
| DataProcessor.PairsOfFileCarriesPaths | backend/core/data_processor.py:141-143 | every pair carries the path of the file it came from |
| DataProcessor.FlattenOfPaths | backend/core/data_processor.py:176-180 | a flattened pair comes from a listed file |
| DataProcessor.AugCopiesPaths | backend/core/data_processor.py:182-198 | augmentation adds no pair from a new file |
| DataProcessor.DatasetsApart | backend/core/data_processor.py:49-74 | for any grouping, no file contributes to two datasets |
| DataProcessor.NoLeakage | backend/core/data_processor.py:49-68 | no file contributes pairs to two of train, validation and test, renamed copies included |
| DataProcessor.DatasetsCover | backend/core/data_processor.py:31-74 | for any grouping, every pair of every file is in one of the three datasets, and every dataset pair is a pair of one of the files or a renamed copy |
| DataProcessor.DatasetsComplete | backend/core/data_processor.py:31-68 | every pair of a file with pairs lands in the training, validation or test set |
| DataProcessor.TrainingFromFiles | backend/core/data_processor.py:66-74 | every training pair is a pair of one of the files or is marked augmented |
| DataProcessor.HeldOutFromFiles | backend/core/data_processor.py:67-68 | every validation and test pair is a pair of one of the files |
| DataProcessor.FileGrouped | backend/core/data_processor.py:31-45 | a file that yields a pair is a key of `data_by_file`, stored with its own pairs |
| DataProcessor.PairLands | backend/core/data_processor.py:66-68 | a pair of a file in one of the three file lists is in that list's flattened data |
| DataProcessor.FlattenedFromFiles | backend/core/data_processor.py:176-180 | a flattened pair is a pair of one of the grouped files |
| DataProcessor.PipelineCovers | backend/core/data_processor.py:24-74 | every pair extracted from a found file ends up in training, validation or test, and every non-augmented pair of the three sets was extracted from a found file |
| DataProcessor.SmallCorpusAllTraining | backend/core/data_processor.py:52-56 | fewer than three files with pairs leave validation and test empty |
| DataProcessor.OnlyTrainingAugmented | backend/core/data_processor.py:66-74 | validation and test pairs are never augmented |
| DataProcessor.HeldOutNotAugmented | backend/core/data_processor.py:66-74 | held-out pairs of any unaugmented grouping stay unaugmented |
| Extractor.PythonRecordsOf | backend/core/extractor.py:33-47 | every record is Python, from the file, with a nonempty docstring |
| Extractor.PythonRecordsOfDocumented | backend/core/extractor.py:33-47 | there is one record per documented function of the walk and no other |
| Extractor.PythonRecordsOfTree | backend/core/extractor.py:33-47 | a parsed file gives a record for every documented function anywhere in its tree, nested ones included, and every record is one of those |
| Extractor.ExtractPython | backend/core/extractor.py:25-51 | the loop computes those records; an unreadable or unparsable file gives none |
| Extractor.JavaRecordsOf | backend/core/extractor.py:61-71 | every record is Java, from the file, with a nonempty docstring and a line that is the position or 0 |
| Extractor.JavaRecordsOfDocumented | backend/core/extractor.py:61-71 | there is one record per documented method declaration and no other |
| Extractor.ExtractJava | backend/core/extractor.py:53-75 | the loop computes those records; an unreadable or unparsable file gives none |
| Extractor.PythonResults | backend/core/extractor.py:14-17 | the Python records are from found files outside `venv`/`__pycache__` paths |
| Extractor.JavaResults | backend/core/extractor.py:20-21 | the Java records are from found files |
| Extractor.ExtractPythonFiles | backend/core/extractor.py:14-17 | the first glob loop computes the Python results |
| Extractor.ExtractJavaFiles | backend/core/extractor.py:20-21 | the second glob loop computes the Java results |
| Extractor.ExtractFromDirectory | backend/core/extractor.py:11-23 | the Python results come first, then the Java results |
| Extractor.ResultsOrdered | backend/core/extractor.py:11-23 | no Python record follows a Java one, and none comes from an excluded path |
| Extractor.PythonResultsMember | backend/core/extractor.py:14-17 | a record is a Python result iff it is a record of a found `.py` file whose path contains neither `venv` nor `__pycache__` |
| Extractor.JavaResultsMember | backend/core/extractor.py:20-21 | a record is a Java result iff it is a record of a found `.java` file |
| Extractor.DirectoryMember | backend/core/extractor.py:11-23 | the result holds exactly the records of the kept `.py` files and of all `.java` files |
| Extractor.ExcludedPythonSkipped | backend/core/extractor.py:15-16 | no record of a `.py` file on a `venv`/`__pycache__` path is in the result |
| Extractor.JavaNotExcluded | backend/core/extractor.py:20-21 | every record of every found Java file is in the result, whatever its path |
| Scanner.YieldFiles | backend/core/scanner.py:14-17 | the yielded paths of one directory's files are the joined supported ones, in order |
| Scanner.Walk | backend/core/scanner.py:10-17 | the walk yields a directory's own files before its kept subdirectories', in order |
| Scanner.WalkSubdirs | backend/core/scanner.py:10-12 | the descent visits the subdirectories left after pruning, in order |
| Scanner.ScanDirectory | backend/core/scanner.py:6-17 | the generator yields exactly the scan of the tree; the top directory is never pruned |
| Scanner.ScanSubdirsFiltered | backend/core/scanner.py:12 | removing the pruned names from `dirs` removes exactly their subtrees from the walk |
| Scanner.ScanYieldsSupported | backend/core/scanner.py:4-17 | every yielded path has one of `.py .js .ts .jsx .tsx`, and never `.java` |
| Scanner.ScanMember | backend/core/scanner.py:10-17 | a path is yielded iff it joins a supported file of the directory, or is yielded from a subdirectory that is not pruned |
| Scanner.PrunedSubtreeIgnored | backend/core/scanner.py:12 | a pruned subdirectory, whatever it holds, changes nothing the walk yields |
| Scanner.RootFilesIncluded | backend/core/scanner.py:10-12 | a supported file directly in the scanned directory is yielded even when that directory is hidden |
| Scanner.ScanCount | backend/core/scanner.py:10-17 | one path per supported file of a kept directory: each is yielded once |
| GithubScraper.LanguageFor | backend/core/github_scraper.py:28-33 | `.py` gives "python", otherwise `.java` gives "java", anything else is skipped |
| GithubScraper.SafePathPointwise | backend/core/github_scraper.py:42 | the safe path has the same length, turns every `/` and `\` into `_`, keeps every other character and contains no separator |
| GithubScraper.SafePathCollision | backend/core/github_scraper.py:42-43 | `a/b.py` and `a_b.py` get the same output file |
| GithubScraper.OutputName | backend/core/github_scraper.py:43 | the name is the repository name, `_`, the safe path, then `.txt` |
| GithubScraper.WritesFor | backend/core/github_scraper.py:25-52 | one write exactly for a `.py`/`.java` file whose text decodes, none otherwise |
| GithubScraper.SaveFile | backend/core/github_scraper.py:25-49 | handling a file entry writes exactly what its extension and decoded text call for |
| GithubScraper.ScrapeRepo | backend/core/github_scraper.py:13-55 | the worklist loop writes exactly the files of the FIFO walk, stopping at a listing that raises |
| GithubScraper.ScrapeWritesTagged | backend/core/github_scraper.py:28-49 | every write is a `.py` or `.java` file under its derived name, with the header naming its language |
| GithubScraper.QueueWritesEveryFileOnce | backend/core/github_scraper.py:19-23 | when every listing succeeds, the worklist writes the files of the whole tree, each once (as a multiset, the depth-first writes) |
| GithubScraper.FirstBlankLineEndsHeader | backend/core/github_scraper.py:46 | the first blank line of a written file is the one after its header |
| GithubScraper.HeaderDeclaresLanguage | backend/core/github_scraper.py:46 | the header's last line declares the language, and the parser reads it back |
| GithubScraper.ScrapedFileRoundTrip | backend/core/github_scraper.py:46 | parsing a written file gives back its language, its raw text unchanged and its header, for a repository name and path without newlines |

## Left out

- Printing, `json.dump`, `os.makedirs`, opening output files, and `argparse` entry points: side effects with no bearing on the values computed.
- The GitHub API: the repository, its contents tree, each directory listing (or its failure) and each file's decoded text (or its failure) are inputs. A failed `get_repo` is a None top listing.
- Radon (`mi_visit`, `raw.analyze`, `cc_visit`), lizard and javalang: their results, or their failure, are input records. The maintainability index is an opaque real.
- `ast.parse` and `ast.unparse`: function-typed parameters. `ast.get_docstring`'s cleaning is folded into the docstring each function node carries. `ast.fix_missing_locations` changes no identifiers and is not modelled.
- File reading: `read(path)` gives the text or None when opening or decoding raises. Universal-newline translation on reading is not modelled.
- `glob.glob` and `os.walk` listings: inputs in their listing order. Hidden-file behaviour of the `**` glob, symbolic links, and directories that cannot be listed are not modelled.
- Analyzer.AnalyzeFile: an unreadable `.py` file makes `analyze_file` raise; the model assumes the read succeeds.
- Metrics.CalculateCyclomaticComplexity: only `SyntaxError` is caught in the source; the parser outcome is an input, so other exceptions (recursion depth, memory) are not modelled.
- `str.lower` is modelled on ASCII letters only. Comparisons with "python", "py" and "java" are unaffected, since no other character lowercases to those letters.
- DataProcessor.SplitFiles: `train_test_split` is modelled as scikit-learn's shuffle split. The seeded permutation is an input assumed to be a permutation; the test size is `ceil(0.2 n)` (then `ceil(0.5 m)`), computed on integers rather than floats.
- GithubScraper.ScrapedFileRoundTrip: stated for repository names and paths without a `\n`. A newline there could place a blank line inside the header.
- GithubScraper.ScrapedFileRoundTrip: the round trip is stated on strings. Reading the file back from disk in text mode turns `\r\n` and `\r` in the raw text into `\n`, so the code read back equals the raw text only when it has no `\r`.
- The output directory prefix of `Path(output_dir) / name` is not modelled; only the file name is.
