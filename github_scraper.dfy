/**
 * `scrape_repo`: a breadth-first walk over a repository's contents that saves
 * every `.py` and `.java` file as a text file with a three-line header. The
 * GitHub API is not called: the contents tree, with the outcome of each
 * directory listing and of each file's UTF-8 decoding, is an input, and the
 * written files are returned as a list of writes in order.
 */
module GithubScraper {
  import opened Wrappers
  import opened Strings
  import opened DataProcessor

  /** The repository: `repo.name` and `repo.full_name`. */
  datatype Repo = Repo(name: string, fullName: string)

  /**
   * One entry of `repo.get_contents`: a directory whose listing is None when
   * fetching it raises, or any other entry, whose decoded text is None when
   * decoding raises.
   */
  datatype Entry =
    | DirEntry(path: string, listing: Listing)
    | FileEntry(path: string, content: Option<string>)

  /** `repo.get_contents(path)` for a directory: its entries, or Unavailable when the call raises. */
  datatype Listing = Unavailable | Listed(entries: seq<Entry>)

  /** One `open(output_path, "w").write(file_data)`: the file name under the output directory and the text. */
  datatype Write = Write(name: string, data: string)

  /** The language a path is saved under: `.py` first, then `.java`; None when the file is skipped. */
  function LanguageFor(path: string): (r: Option<string>)
    ensures r == Some("python") <==> EndsWith(path, ".py")
    ensures r == Some("java") <==> EndsWith(path, ".java") && !EndsWith(path, ".py")
    ensures r.None? <==> !EndsWith(path, ".py") && !EndsWith(path, ".java")
  {
    if EndsWith(path, ".py") then Some("python")
    else if EndsWith(path, ".java") then Some("java")
    else None
  }

  /** `path.replace("/", "_").replace("\\", "_")`. */
  function SafePath(path: string): string {
    ReplaceAll(ReplaceAll(path, "/", "_"), "\\", "_")
  }

  /** Both separators become '_'; every other character, and the length, stay as they were. */
  lemma SafePathPointwise(path: string)
    ensures |SafePath(path)| == |path|
    ensures forall i :: 0 <= i < |path| ==>
      SafePath(path)[i] == (if path[i] == '/' || path[i] == '\\' then '_' else path[i])
    ensures forall i :: 0 <= i < |path| ==> SafePath(path)[i] != '/' && SafePath(path)[i] != '\\'
  {
    var once := ReplaceAll(path, "/", "_");
    ReplaceCharPointwise(path, '/', '_');
    ReplaceCharPointwise(once, '\\', '_');
  }

  /**
   * Flattening is not injective: a nested file and a top-level file with an
   * underscore get the same output name, so the later one overwrites the earlier.
   */
  lemma SafePathCollision()
    ensures "a/b.py" != "a_b.py" && SafePath("a/b.py") == SafePath("a_b.py")
  {
    SafePathPointwise("a/b.py");
    SafePathPointwise("a_b.py");
    assert SafePath("a/b.py") == "a_b.py";
  }

  /** `f"{repo.name}_{safe_path}.txt"`. */
  function OutputName(repo: Repo, path: string): (r: string)
    ensures |r| == |repo.name| + |path| + 5
    ensures StartsWith(r, repo.name + "_") && EndsWith(r, ".txt")
    ensures r[|repo.name| + 1..|r| - 4] == SafePath(path)
  {
    SafePathPointwise(path);
    var r := repo.name + "_" + SafePath(path) + ".txt";
    assert r[..|repo.name| + 1] == repo.name + "_";
    r
  }

  /** The header `Repo: `, `Path: ` and `Language: ` lines that precede the raw text. */
  function Header(repo: Repo, path: string, lang: string): string {
    "Repo: " + repo.fullName + "\nPath: " + path + "\nLanguage: " + lang
  }

  /** `file_data`: the header, a blank line, then the file's text unchanged. */
  function FileData(repo: Repo, path: string, lang: string, raw: string): (r: string)
    ensures r == Header(repo, path, lang) + "\n\n" + raw
  {
    "Repo: " + repo.fullName + "\nPath: " + path + "\nLanguage: " + lang + "\n\n" + raw
  }

  /** What handling one non-directory entry writes: nothing for other extensions or text that does not decode. */
  function WritesFor(repo: Repo, path: string, content: Option<string>): (r: seq<Write>)
    ensures |r| <= 1
    ensures |r| == 1 <==> LanguageFor(path).Some? && content.Some?
  {
    match LanguageFor(path)
    case None => []
    case Some(lang) =>
      if content.None? then [] else [Write(OutputName(repo, path), FileData(repo, path, lang, content.value))]
  }

  function EntrySize(e: Entry): (r: nat)
    decreases e, 1
    ensures r >= 1
  {
    match e
    case FileEntry(_, _) => 1
    case DirEntry(_, Unavailable) => 1
    case DirEntry(_, Listed(children)) => 1 + EntriesSize(children)
  }

  function EntriesSize(es: seq<Entry>): nat
    decreases es, 0
  {
    if es == [] then 0 else EntrySize(es[0]) + EntriesSize(es[1..])
  }

  lemma {:induction false} EntriesSizeConcat(a: seq<Entry>, b: seq<Entry>)
    ensures EntriesSize(a + b) == EntriesSize(a) + EntriesSize(b)
  {
    if a == [] {
      assert a + b == b;
    } else {
      assert (a + b)[1..] == a[1..] + b;
      EntriesSizeConcat(a[1..], b);
    }
  }

  /**
   * The writes of the FIFO worklist `q`: a directory's listing joins the back
   * of the queue; a listing that raises ends the whole scrape.
   */
  function ScrapeQueue(repo: Repo, q: seq<Entry>): seq<Write>
    decreases EntriesSize(q)
  {
    if q == [] then []
    else
      match q[0]
      case FileEntry(path, content) => WritesFor(repo, path, content) + ScrapeQueue(repo, q[1..])
      case DirEntry(_, Unavailable) => []
      case DirEntry(_, Listed(children)) =>
        EntriesSizeConcat(q[1..], children);
        assert EntrySize(q[0]) == 1 + EntriesSize(children);
        ScrapeQueue(repo, q[1..] + children)
  }

  /** The whole scrape: nothing is written when the repository or its top listing cannot be fetched. */
  function Scrape(repo: Repo, top: Option<seq<Entry>>): seq<Write> {
    if top.None? then [] else ScrapeQueue(repo, top.value)
  }

  /** `scrape_repo` with the printing and the network left out. */
  method ScrapeRepo(repo: Repo, top: Option<seq<Entry>>) returns (writes: seq<Write>)
    ensures writes == Scrape(repo, top)
  {
    writes := [];
    if top.None? {
      return;
    }
    var contents := top.value;
    while contents != []
      invariant writes + ScrapeQueue(repo, contents) == ScrapeQueue(repo, top.value)
      decreases EntriesSize(contents)
    {
      var entry := contents[0];
      var rest := contents[1..];
      if entry.DirEntry? {
        if entry.listing.Unavailable? {
          QueueStepUnavailable(repo, contents);
          assert writes + [] == writes;
          return;
        }
        QueueStepListed(repo, contents);
        contents := rest + entry.listing.entries;
      } else {
        var saved := SaveFile(repo, entry.path, entry.content);
        QueueStepFile(repo, contents);
        assert writes + saved + ScrapeQueue(repo, rest) == ScrapeQueue(repo, top.value);
        writes := writes + saved;
        contents := rest;
      }
    }
  }

  lemma QueueStepUnavailable(repo: Repo, q: seq<Entry>)
    requires q != [] && q[0].DirEntry? && q[0].listing.Unavailable?
    ensures ScrapeQueue(repo, q) == []
  {
  }

  lemma QueueStepListed(repo: Repo, q: seq<Entry>)
    requires q != [] && q[0].DirEntry? && q[0].listing.Listed?
    ensures ScrapeQueue(repo, q) == ScrapeQueue(repo, q[1..] + q[0].listing.entries)
    ensures EntriesSize(q[1..] + q[0].listing.entries) < EntriesSize(q)
  {
    EntriesSizeConcat(q[1..], q[0].listing.entries);
    assert EntrySize(q[0]) == 1 + EntriesSize(q[0].listing.entries);
  }

  lemma QueueStepFile(repo: Repo, q: seq<Entry>)
    requires q != [] && q[0].FileEntry?
    ensures ScrapeQueue(repo, q) == WritesFor(repo, q[0].path, q[0].content) + ScrapeQueue(repo, q[1..])
    ensures EntriesSize(q[1..]) < EntriesSize(q)
  {
  }

  /** The body of the loop for a file entry: the language tag, then the write when the text decodes. */
  method SaveFile(repo: Repo, path: string, content: Option<string>) returns (saved: seq<Write>)
    ensures saved == WritesFor(repo, path, content)
  {
    saved := [];
    var saveFile := false;
    var lang := "";
    if EndsWith(path, ".py") {
      saveFile := true;
      lang := "python";
    } else if EndsWith(path, ".java") {
      saveFile := true;
      lang := "java";
    }
    if saveFile && content.Some? {
      var raw := content.value;
      var safePath := ReplaceAll(ReplaceAll(path, "/", "_"), "\\", "_");
      var outputName := repo.name + "_" + safePath + ".txt";
      var fileData := "Repo: " + repo.fullName + "\nPath: " + path + "\nLanguage: " + lang + "\n\n" + raw;
      saved := [Write(outputName, fileData)];
    }
  }

  /**
   * Only `.py` and `.java` files are written, under the name derived from
   * their path and with a header naming the language their extension gives.
   */
  lemma {:induction false} ScrapeWritesTagged(repo: Repo, q: seq<Entry>)
    decreases EntriesSize(q)
    ensures forall w :: w in ScrapeQueue(repo, q) ==>
      exists path, raw ::
        ((EndsWith(path, ".py") && w.data == FileData(repo, path, "python", raw))
         || (EndsWith(path, ".java") && !EndsWith(path, ".py") && w.data == FileData(repo, path, "java", raw)))
        && w.name == OutputName(repo, path)
  {
    if q != [] {
      match q[0]
      case FileEntry(path, content) =>
        ScrapeWritesTagged(repo, q[1..]);
        forall w | w in WritesFor(repo, path, content)
          ensures exists path', raw ::
            ((EndsWith(path', ".py") && w.data == FileData(repo, path', "python", raw))
             || (EndsWith(path', ".java") && !EndsWith(path', ".py") && w.data == FileData(repo, path', "java", raw)))
            && w.name == OutputName(repo, path')
        {
          var raw := content.value;
          assert w.name == OutputName(repo, path);
          if EndsWith(path, ".py") {
            assert w.data == FileData(repo, path, "python", raw);
          } else {
            assert w.data == FileData(repo, path, "java", raw);
          }
        }
      case DirEntry(_, Unavailable) =>
      case DirEntry(_, Listed(children)) =>
        EntriesSizeConcat(q[1..], children);
        assert EntrySize(q[0]) == 1 + EntriesSize(children);
        ScrapeWritesTagged(repo, q[1..] + children);
    }
  }

  /** The depth-first reference: each entry's own writes, a directory's being those of its listing. */
  function TreeWrites(repo: Repo, e: Entry): seq<Write>
    decreases e, 1
  {
    match e
    case FileEntry(path, content) => WritesFor(repo, path, content)
    case DirEntry(_, Unavailable) => []
    case DirEntry(_, Listed(children)) => TreeWritesSeq(repo, children)
  }

  function TreeWritesSeq(repo: Repo, es: seq<Entry>): seq<Write>
    decreases es, 0
  {
    if es == [] then [] else TreeWrites(repo, es[0]) + TreeWritesSeq(repo, es[1..])
  }

  lemma {:induction false} TreeWritesSeqConcat(repo: Repo, a: seq<Entry>, b: seq<Entry>)
    ensures TreeWritesSeq(repo, a + b) == TreeWritesSeq(repo, a) + TreeWritesSeq(repo, b)
  {
    if a == [] {
      assert a + b == b;
    } else {
      assert (a + b)[1..] == a[1..] + b;
      TreeWritesSeqConcat(repo, a[1..], b);
    }
  }

  /** Every directory listing in the tree succeeds. */
  ghost predicate Listed(e: Entry)
    decreases e, 1
  {
    match e
    case FileEntry(_, _) => true
    case DirEntry(_, Unavailable) => false
    case DirEntry(_, Listed(children)) => ListedAll(children)
  }

  ghost predicate ListedAll(es: seq<Entry>)
    decreases es, 0
  {
    es == [] || (Listed(es[0]) && ListedAll(es[1..]))
  }

  lemma {:induction false} ListedAllConcat(a: seq<Entry>, b: seq<Entry>)
    requires ListedAll(a) && ListedAll(b)
    ensures ListedAll(a + b)
  {
    if a == [] {
      assert a + b == b;
    } else {
      assert (a + b)[1..] == a[1..] + b;
      ListedAllConcat(a[1..], b);
    }
  }

  /**
   * When no listing fails, the worklist reaches every file entry of the tree
   * exactly once: its writes are the depth-first writes, in another order.
   */
  lemma {:induction false} QueueWritesEveryFileOnce(repo: Repo, q: seq<Entry>)
    requires ListedAll(q)
    decreases EntriesSize(q)
    ensures multiset(ScrapeQueue(repo, q)) == multiset(TreeWritesSeq(repo, q))
  {
    if q != [] {
      match q[0]
      case FileEntry(path, content) =>
        QueueWritesEveryFileOnce(repo, q[1..]);
      case DirEntry(_, Listed(children)) =>
        EntriesSizeConcat(q[1..], children);
        assert EntrySize(q[0]) == 1 + EntriesSize(children);
        ListedAllConcat(q[1..], children);
        QueueWritesEveryFileOnce(repo, q[1..] + children);
        TreeWritesSeqConcat(repo, q[1..], children);
    }
  }

  lemma {:induction false} HeaderHasNoBlankLine(repo: Repo, path: string, lang: string, j: nat)
    requires '\n' !in repo.fullName && '\n' !in path && lang != [] && '\n' !in lang
    requires j + 1 < |Header(repo, path, lang)|
    ensures !(Header(repo, path, lang)[j] == '\n' && Header(repo, path, lang)[j + 1] == '\n')
  {
    var s1 := "Repo: " + repo.fullName;
    var s2 := "Path: " + path;
    var s3 := "Language: " + lang;
    var h := Header(repo, path, lang);
    assert h == s1 + "\n" + s2 + "\n" + s3;
    var a := |s1|;
    var b := a + 1 + |s2|;
    if j == a {
      assert h[j + 1] == 'P';
    } else if j == b {
      assert h[j + 1] == 'L';
    }
  }

  /** The first blank line of a written file is the one after its header. */
  lemma FirstBlankLineEndsHeader(header: string, raw: string)
    requires header != [] && header[|header| - 1] != '\n'
    requires forall j :: 0 <= j && j + 1 < |header| ==> !(header[j] == '\n' && header[j + 1] == '\n')
    ensures Find(header + "\n\n" + raw, "\n\n") == Some(|header|)
  {
    var c := header + "\n\n" + raw;
    var h := |header|;
    assert c[h..h + 2] == "\n\n";
    assert OccursAt(c, "\n\n", h);
    forall j | 0 <= j < h ensures !OccursAt(c, "\n\n", j) {
      if j + 1 < h {
        assert c[j] == header[j] && c[j + 1] == header[j + 1];
      } else {
        assert c[j] == header[j];
      }
    }
  }

  lemma LanguageIsLower(lang: string)
    requires lang == "python" || lang == "java"
    ensures Lower(lang) == lang
  {
    if lang == "python" {
      assert forall i :: 0 <= i < |lang| ==> !('A' <= lang[i] <= 'Z');
    } else {
      assert forall i :: 0 <= i < |lang| ==> !('A' <= lang[i] <= 'Z');
    }
    LowerKeepsLower(lang);
  }

  lemma CleanLanguageOfTag(lang: string)
    requires lang == "python" || lang == "java"
    ensures CleanLanguage("Language: " + lang) == lang
  {
    var line := LanguageTag + lang;
    assert line[..|LanguageTag|] == LanguageTag;
    assert line[|LanguageTag|..] == lang;
    ReplaceAllKeepsShort(lang, LanguageTag, "");
    assert ReplaceAll(line, LanguageTag, "") == lang;
    assert !IsSpace(lang[0]) && !IsSpace(lang[|lang| - 1]);
    assert Strip(lang) == lang;
    LanguageIsLower(lang);
  }

  /**
   * A file written by the scraper is read back by the header parser as its
   * language, its raw text unchanged and its header, provided the repository
   * name and the path contain no newline.
   */
  lemma ScrapedFileRoundTrip(repo: Repo, path: string, lang: string, raw: string)
    requires '\n' !in repo.fullName && '\n' !in path
    requires lang == "python" || lang == "java"
    ensures ScrapedFields(Some(FileData(repo, path, lang, raw)))
      == Scraped(lang, raw, "Repo: " + repo.fullName + "\nPath: " + path + "\nLanguage: " + lang)
  {
    var header := Header(repo, path, lang);
    var c := FileData(repo, path, lang, raw);
    HeaderEndsAtFirstBlankLine(repo, path, lang, raw);
    var h := |header|;
    assert c[..h] == header;
    assert c[h + 2..] == raw;
    HeaderDeclaresLanguage(repo, path, lang);
  }

  lemma HeaderEndsAtFirstBlankLine(repo: Repo, path: string, lang: string, raw: string)
    requires '\n' !in repo.fullName && '\n' !in path
    requires lang == "python" || lang == "java"
    ensures Find(FileData(repo, path, lang, raw), "\n\n") == Some(|Header(repo, path, lang)|)
  {
    var header := Header(repo, path, lang);
    forall j | 0 <= j && j + 1 < |header| ensures !(header[j] == '\n' && header[j + 1] == '\n') {
      HeaderHasNoBlankLine(repo, path, lang, j);
    }
    assert header[|header| - 1] == lang[|lang| - 1];
    FirstBlankLineEndsHeader(header, raw);
  }

  /** The header's last line is its `Language: ` line, so the parser finds the language the scraper wrote. */
  lemma HeaderDeclaresLanguage(repo: Repo, path: string, lang: string)
    requires lang == "python" || lang == "java"
    ensures LanguageOf(SplitLines(Header(repo, path, lang))) == lang
  {
    HeaderLastLine(repo, path, lang);
    var lines := SplitLines(Header(repo, path, lang));
    assert StartsWith(lines[|lines| - 1], LanguageTag) by {
      assert ("Language: " + lang)[..|LanguageTag|] == LanguageTag;
    }
    LanguageOfLastTag(lines, |lines| - 1);
    CleanLanguageOfTag(lang);
  }

  lemma HeaderLastLine(repo: Repo, path: string, lang: string)
    requires lang == "python" || lang == "java"
    ensures var lines := SplitLines(Header(repo, path, lang));
      |lines| > 0 && lines[|lines| - 1] == "Language: " + lang
  {
    var s3 := "Language: " + lang;
    var pre := "Repo: " + repo.fullName + "\nPath: " + path;
    assert "\nLanguage: " == "\n" + "Language: ";
    assert Header(repo, path, lang) == pre + "\n" + s3;
    TagLineUnbroken(lang);
    LastLineOf(pre, s3);
  }

  lemma TagLineUnbroken(lang: string)
    requires lang == "python" || lang == "java"
    ensures NoLineBreak("Language: " + lang)
  {
    var s3 := "Language: " + lang;
    forall i | 0 <= i < |s3| ensures !IsLineBreak(s3[i]) {
      assert ' ' <= s3[i] <= 'z';
    }
  }
}
