/**
 * `SearchyProvider` (provider.ts:14-162): the text document content
 * provider that renders a search as a document and remembers, per
 * document URI, the links it created while rendering; and
 * `parseSearchQuery` (provider.ts:190-214).
 *
 * Running ripgrep is outside the model: `ProvideTextDocumentContent`
 * receives what the run produced as a `RunOutcome`, and the user's query
 * is tried on a result's text through a `Matcher`.
 */
module Provider {
  import opened Wrappers
  import opened Text
  import opened Classifier
  import opened Aggregation
  import opened Rendering

  // ---------------------------------------------------------------------------
  // parseSearchQuery

  /** The search: a path (before it is joined to the workspace root) and the query. */
  datatype SearchQuery = SearchQuery(path: string, query: string)

  /** A character of the JavaScript class `\s`. */
  predicate IsJsSpace(c: char)
  {
    || c == '\t' || c == '\n' || c == '\U{000B}' || c == '\U{000C}' || c == '\r' || c == ' '
    || c == '\U{00A0}' || c == '\U{1680}' || ('\U{2000}' <= c <= '\U{200A}')
    || c == '\U{2028}' || c == '\U{2029}' || c == '\U{202F}' || c == '\U{205F}'
    || c == '\U{3000}' || c == '\U{FEFF}'
  }

  /**
   * `cmd.match(/^([^:]+):\s?(.*)/)`, then `path` is the whole match
   * (group 0) and `query` is group 1, the text before the first colon;
   * without a match the path is empty and the query is `cmd`.
   */
  function ParseSearchQuery(cmd: string): SearchQuery
  {
    var colon := IndexOf(cmd, ':');
    if 0 < colon < |cmd| then
      var rest := if colon + 1 < |cmd| && IsJsSpace(cmd[colon + 1]) then colon + 2 else colon + 1;
      SearchQuery(cmd[..SegmentEnd(cmd, rest)], cmd[..colon])
    else
      SearchQuery("", cmd)
  }

  /**
   * The two outcomes of `parseSearchQuery`: a command that does not start
   * with a non-empty colon-free prefix and a colon is searched for as a
   * whole; otherwise the query is that prefix and the path is the match,
   * which runs up to the first line terminator after the colon.
   */
  lemma ParseSearchQueryCases(cmd: string)
    ensures var q := ParseSearchQuery(cmd);
            (q.path == []) <==> (':' !in cmd || cmd[0] == ':')
    ensures var q := ParseSearchQuery(cmd);
            q.path == [] ==> q.query == cmd
    ensures var q := ParseSearchQuery(cmd);
            q.path != [] ==>
              && q.query != [] && ':' !in q.query
              && q.query + ":" <= q.path && q.path <= cmd
    ensures var q := ParseSearchQuery(cmd);
            q.path != [] && NoLineTerminator(cmd) ==> q.path == cmd
  {
    var colon := IndexOf(cmd, ':');
    var q := ParseSearchQuery(cmd);
    if 0 < colon < |cmd| {
      assert q.query == cmd[..colon];
      assert cmd[0] != ':';
      assert ':' in cmd;
      assert q.query + ":" == cmd[..colon + 1];
    } else if colon == |cmd| {
      assert ':' !in cmd;
    }
  }

  /** The scope goes to the query and the whole command to the path. */
  lemma ParseSearchQueryExample()
    ensures ParseSearchQuery("src: foo") == SearchQuery("src: foo", "src")
  {
    var cmd := "src: foo";
    assert IndexOf(cmd, ':') == 3;
    assert IsJsSpace(cmd[4]);
    assert SegmentEnd(cmd, 5) == 8;
    assert cmd[..8] == cmd;
  }

  // ---------------------------------------------------------------------------
  // what a search renders

  /** What running the search command did: threw an error, or returned its output. */
  datatype RunOutcome = Threw(message: string) | Returned(output: string)

  /** `searchResults.toString().split('\n')` without the empty pieces (provider.ts:53-56). */
  function OutputLines(output: string): (r: seq<string>)
    ensures forall k :: 0 <= k < |r| ==> r[k] != [] && NoNewline(r[k])
    ensures forall x :: x in r <==> x in Split(output) && x != []
  {
    OutputLinesClean(output);
    NonEmpty(Split(output))
  }

  lemma OutputLinesClean(output: string)
    ensures forall k :: 0 <= k < |NonEmpty(Split(output))| ==>
              NonEmpty(Split(output))[k] != [] && NoNewline(NonEmpty(Split(output))[k])
    ensures forall x :: x in NonEmpty(Split(output)) <==> x in Split(output) && x != []
  {
    var pieces := Split(output);
    NonEmptyMembers(pieces);
    forall k | 0 <= k < |NonEmpty(pieces)|
      ensures NonEmpty(pieces)[k] != [] && NoNewline(NonEmpty(pieces)[k])
    {
      var x := NonEmpty(pieces)[k];
      assert x in NonEmpty(pieces);
      var n :| 0 <= n < |pieces| && pieces[n] == x;
    }
  }

  /** The lines of two outputs joined by a newline are the lines of the first, then those of the second. */
  lemma OutputLinesAppend(a: string, b: string)
    ensures OutputLines(a + "\n" + b) == OutputLines(a) + OutputLines(b)
  {
    SplitAppend(a, b);
    NonEmptyAppend(Split(a), Split(b));
  }

  /** A newline-free output is one line, or none when it is empty. */
  lemma OutputLinesSingle(s: string)
    requires NoNewline(s)
    ensures OutputLines(s) == if s == [] then [] else [s]
  {
    SplitNoNewline(s);
    NonEmptySingle(s);
  }

  /** The count in the header: the pieces of the output less the empty ones. */
  lemma OutputLinesCount(output: string)
    ensures |OutputLines(output)| == Newlines(output) + 1 - multiset(Split(output))[""]
  {
    SplitLength(output);
    NonEmptyCount(Split(output));
  }

  /** The first row of a rendered search. */
  function Header(count: nat, query: string): string
  {
    NatToString(count) + " search results found for \"" + query + "\""
  }

  /** The entries of the search, grouped by file and trimmed (provider.ts:57-108). */
  function SearchResults(output: string): map<string, seq<Entry>>
  {
    Results(OutputLines(output))
  }

  /** The rows of the rendered search: the files in sorted order. */
  function DocumentRows(output: string): seq<Row>
  {
    var res := SearchResults(output);
    Layout(SortedKeys(res.Keys), res)
  }

  /** The document `provideTextDocumentContent` returns. */
  function DocumentContent(cmd: string, run: RunOutcome): string
  {
    match run
    case Threw(message) => message
    case Returned(output) =>
      if output == [] then "There was an error during your search!"
      else
        var res := SearchResults(output);
        Content(Header(|OutputLines(output)|, ParseSearchQuery(cmd).query), SortedKeys(res.Keys), res)
  }

  /** The links `provideTextDocumentContent` leaves for the document. */
  function DocumentLinks(cmd: string, run: RunOutcome, matcher: Matcher): seq<Link>
  {
    match run
    case Threw(_) => []
    case Returned(output) =>
      if output == [] then [] else LinksOf(DocumentRows(output), ParseSearchQuery(cmd).query, matcher)
  }

  lemma LinksOfFileHead(rows: seq<Row>, file: string, query: string, matcher: Matcher)
    ensures LinksOf(rows + [BlankRow, FileRow(file)], query, matcher) == LinksOf(rows, query, matcher)
  {
    LinksOfSnoc(rows, BlankRow, query, matcher);
    LinksOfSnoc(rows + [BlankRow], FileRow(file), query, matcher);
    assert rows + [BlankRow] + [FileRow(file)] == rows + [BlankRow, FileRow(file)];
  }

  lemma GroupSnoc(g: seq<Entry>, k: nat, start: nat, query: string, matcher: Matcher)
    requires k < |g|
    ensures GroupLinks(g[..k + 1], start, query, matcher) ==
            GroupLinks(g[..k], start, query, matcher) + RowLinks(EntryRow(g[k]), start + k, query, matcher)
    ensures EntryTexts(g[..k + 1]) == EntryTexts(g[..k]) + [EntryText(g[k])]
  {
    assert g[..k + 1][..k] == g[..k];
  }

  /** The links of a group after `prefix`, extended by the entry on row `next`. */
  lemma GroupStep(prefix: seq<Link>, g: seq<Entry>, k: nat, start: nat, next: nat, query: string, matcher: Matcher)
    requires k < |g| && next == start + k
    ensures (prefix + GroupLinks(g[..k], start, query, matcher)) + RowLinks(EntryRow(g[k]), next, query, matcher)
            == prefix + GroupLinks(g[..k + 1], start, query, matcher)
    ensures EntryTexts(g[..k]) + [EntryText(g[k])] == EntryTexts(g[..k + 1])
  {
    GroupSnoc(g, k, start, query, matcher);
    ConcatAssoc(prefix, GroupLinks(g[..k], start, query, matcher), RowLinks(EntryRow(g[k]), next, query, matcher));
  }

  lemma BlockOfTexts(file: string, g: seq<Entry>, texts: seq<string>, block: string)
    requires texts == EntryTexts(g) && block == "\n" + file + ":\n" + Join(texts, "\n")
    ensures block == FileBlock(file, g)
  {}

  lemma FileBlocksSnoc(files: seq<string>, groups: map<string, seq<Entry>>, i: nat)
    requires i < |files|
    requires forall n :: 0 <= n < |files| ==> files[n] in groups
    ensures FileBlocks(files[..i + 1], groups) == FileBlocks(files[..i], groups) + [FileBlock(files[i], groups[files[i]])]
  {
  }

  lemma LayoutSnoc(files: seq<string>, groups: map<string, seq<Entry>>, i: nat)
    requires i < |files|
    requires forall n :: 0 <= n < |files| ==> files[n] in groups
    ensures Layout(files[..i + 1], groups) ==
            Layout(files[..i], groups) + FileRows(files[i], groups[files[i]])
  {
    var prefix := files[..i + 1];
    FilesRowsSnoc(prefix, groups);
    assert prefix[..i] == files[..i];
    ConcatAssoc([HeaderRow], FilesRows(files[..i], groups), FileRows(files[i], groups[files[i]]));
  }

  /** The rendered search, spelled out. */
  lemma RenderedSearch(cmd: string, run: RunOutcome, matcher: Matcher)
    requires run.Returned? && run.output != []
    ensures var output := run.output;
            var res := SearchResults(output);
            var files := SortedKeys(res.Keys);
            var query := ParseSearchQuery(cmd).query;
            && DocumentContent(cmd, run) == Content(Header(|OutputLines(output)|, query), files, res)
            && DocumentLinks(cmd, run, matcher) == LinksOf(Layout(files, res), query, matcher)
  {
  }

  /** Splits the output into lines, groups them by file and trims the groups (provider.ts:53-108). */
  method CollectResults(searchResults: string) returns (resultsArray: seq<string>, resultsByFile: map<string, seq<Entry>>)
    ensures resultsArray == OutputLines(searchResults)
    ensures resultsByFile == SearchResults(searchResults)
  {
    resultsArray := OutputLines(searchResults);
    resultsByFile := GroupByFile(resultsArray);
    AggregateWellFormed(resultsArray);
    resultsByFile := RemoveTrailingSeparators(resultsByFile);
  }

  /** Rendering one more file adds its rows and its group's links. */
  lemma LayoutLinksSnoc(files: seq<string>, groups: map<string, seq<Entry>>, i: nat, query: string, matcher: Matcher)
    requires i < |files|
    requires forall n :: 0 <= n < |files| ==> files[n] in groups
    ensures |Layout(files[..i + 1], groups)| == |Layout(files[..i], groups)| + 2 + |groups[files[i]]|
    ensures LinksOf(Layout(files[..i + 1], groups), query, matcher) ==
            LinksOf(Layout(files[..i], groups), query, matcher) +
            GroupLinks(groups[files[i]], |Layout(files[..i], groups)| + 2, query, matcher)
  {
    var before := Layout(files[..i], groups);
    var g := groups[files[i]];
    LayoutSnoc(files, groups, i);
    ConcatAssoc(before, [BlankRow, FileRow(files[i])], EntryRows(g));
    LinksOfEntryRows(before + [BlankRow, FileRow(files[i])], g, query, matcher);
    LinksOfFileHead(before, files[i], query, matcher);
  }

  /** The number of rows the header and `files` take, counted file by file as the renderer does. */
  function RowCount(files: seq<string>, groups: map<string, seq<Entry>>): nat
    requires forall n :: 0 <= n < |files| ==> files[n] in groups
  {
    if files == [] then 1
    else RowCount(files[..|files| - 1], groups) + 2 + |groups[files[|files| - 1]]|
  }

  /** The links of `files`, collected file by file as the renderer does. */
  function FilesLinks(files: seq<string>, groups: map<string, seq<Entry>>, query: string, matcher: Matcher): seq<Link>
    requires forall n :: 0 <= n < |files| ==> files[n] in groups
  {
    if files == [] then []
    else
      var prefix := files[..|files| - 1];
      FilesLinks(prefix, groups, query, matcher)
      + GroupLinks(groups[files[|files| - 1]], RowCount(prefix, groups) + 2, query, matcher)
  }

  lemma FilesLinksSnoc(files: seq<string>, groups: map<string, seq<Entry>>, i: nat, query: string, matcher: Matcher)
    requires i < |files|
    requires forall n :: 0 <= n < |files| ==> files[n] in groups
    ensures RowCount(files[..i + 1], groups) == RowCount(files[..i], groups) + 2 + |groups[files[i]]|
    ensures FilesLinks(files[..i + 1], groups, query, matcher) ==
            FilesLinks(files[..i], groups, query, matcher)
            + GroupLinks(groups[files[i]], RowCount(files[..i], groups) + 2, query, matcher)
  {
    assert files[..i + 1][..i] == files[..i];
  }

  /** Counting file by file gives the rows and the links of the layout. */
  lemma {:induction false} FilesLinksOfLayout(files: seq<string>, groups: map<string, seq<Entry>>,
                                              query: string, matcher: Matcher)
    requires forall n :: 0 <= n < |files| ==> files[n] in groups
    ensures RowCount(files, groups) == |Layout(files, groups)|
    ensures FilesLinks(files, groups, query, matcher) == LinksOf(Layout(files, groups), query, matcher)
  {
    if files == [] {
      LinksOfSnoc([], HeaderRow, query, matcher);
      assert Layout(files, groups) == [] + [HeaderRow];
    } else {
      FilesLinksOfLayout(files[..|files| - 1], groups, query, matcher);
      FilesLinksOfLayoutStep(files, groups, query, matcher);
    }
  }

  /** The step of `FilesLinksOfLayout`: from the files but the last to all of them. */
  lemma FilesLinksOfLayoutStep(files: seq<string>, groups: map<string, seq<Entry>>, query: string, matcher: Matcher)
    requires files != [] && forall n :: 0 <= n < |files| ==> files[n] in groups
    requires var prefix := files[..|files| - 1];
             && RowCount(prefix, groups) == |Layout(prefix, groups)|
             && FilesLinks(prefix, groups, query, matcher) == LinksOf(Layout(prefix, groups), query, matcher)
    ensures RowCount(files, groups) == |Layout(files, groups)|
    ensures FilesLinks(files, groups, query, matcher) == LinksOf(Layout(files, groups), query, matcher)
  {
    LayoutLinksLast(files, groups, query, matcher);
  }

  /** `LayoutLinksSnoc` for the last file. */
  lemma LayoutLinksLast(files: seq<string>, groups: map<string, seq<Entry>>, query: string, matcher: Matcher)
    requires files != [] && forall n :: 0 <= n < |files| ==> files[n] in groups
    ensures var prefix, g := files[..|files| - 1], groups[files[|files| - 1]];
            && |Layout(files, groups)| == |Layout(prefix, groups)| + 2 + |g|
            && LinksOf(Layout(files, groups), query, matcher) ==
               LinksOf(Layout(prefix, groups), query, matcher) + GroupLinks(g, |Layout(prefix, groups)| + 2, query, matcher)
  {
    LayoutLinksSnoc(files, groups, |files| - 1, query, matcher);
    assert files[..|files|] == files;
  }

  lemma UpdateTwice<K, V>(m: map<K, V>, k: K, a: V, b: V)
    ensures m[k := a][k := b] == m[k := b]
  {
  }

  // ---------------------------------------------------------------------------
  // the provider

  class SearchyProvider {
    /** The links of each rendered document, by the document's URI. */
    var links: map<string, seq<Link>>

    constructor()
      ensures links == map[]
    {
      links := map[];
    }

    /** Closing a document forgets its links (provider.ts:20-22). */
    method OnDidCloseTextDocument(uri: string)
      modifies this
      ensures links == old(links)[uri := []]
    {
      links := links[uri := []];
    }

    /** The links of a document, or nothing for one never rendered. */
    function ProvideDocumentLinks(uri: string): (r: Option<seq<Link>>)
      reads this
      ensures r.Some? <==> uri in links
      ensures r.Some? ==> r.value == links[uri]
    {
      if uri in links then Some(links[uri]) else None
    }

    /** Adds the link for `formattedLine`, rendered on row `lineNumber`, to the document's links. */
    method CreateDocumentLink(formattedLine: Entry, lineNumber: nat, searchQuery: SearchQuery,
                              docUri: string, matcher: Matcher)
      requires formattedLine.Line? && docUri in links
      modifies this
      ensures links == old(links)[docUri := old(links)[docUri] +
                                   LinkFor(formattedLine, lineNumber, searchQuery.query, matcher)]
    {
      var col := ParseColumn(formattedLine.column);
      var preamble := |"  " + formattedLine.line + ":"|;
      var found := matcher(searchQuery.query, formattedLine.result);
      if found.None? {
        assert links[docUri] + [] == links[docUri];
        return;
      }
      var searchTerm := found.value;
      var linkRange := Range(Position(lineNumber, Plus(Int(preamble), col)),
                             Position(lineNumber, Plus(Plus(Int(preamble), col), Int(searchTerm))));
      var uri := Target(formattedLine.file, formattedLine.line);
      links := links[docUri := links[docUri] + [DocumentLink(linkRange, uri)]];
    }

    /**
     * The `sortedFiles.map` callback for one file (provider.ts:113-128):
     * renders `fileName` and its group, whose rows start at row
     * `lineNumber` with a blank row and the file's name, the entries
     * following from row `lineNumber + 2`, creates the links of its
     * entries, and returns the block and the row the next file starts at.
     */
    method RenderFile(uri: string, fileName: string, group: seq<Entry>, lineNumber: nat,
                      searchQuery: SearchQuery, matcher: Matcher)
      returns (block: string, next: nat)
      requires uri in links
      modifies this
      ensures block == FileBlock(fileName, group)
      ensures next == lineNumber + 2 + |group|
      ensures uri in links && links == old(links)[uri := links[uri]]
      ensures links[uri] == old(links)[uri] + GroupLinks(group, lineNumber + 2, searchQuery.query, matcher)
    {
      assert group[..0] == [];
      assert old(links)[uri] + [] == old(links)[uri];
      next := lineNumber + 1;
      var texts: seq<string> := [];
      var k := 0;
      while k < |group|
        invariant 0 <= k <= |group|
        invariant texts == EntryTexts(group[..k])
        invariant next == lineNumber + 1 + k
        invariant uri in links && links == old(links)[uri := links[uri]]
        invariant links[uri] == old(links)[uri] + GroupLinks(group[..k], lineNumber + 2, searchQuery.query, matcher)
      {
        next := next + 1;
        assert next == lineNumber + 2 + k;
        ghost var before := links;
        var text := RenderEntry(uri, group[k], next, searchQuery, matcher);
        UpdateTwice(old(links), uri, before[uri], links[uri]);
        GroupStep(old(links)[uri], group, k, lineNumber + 2, next, searchQuery.query, matcher);
        texts := texts + [text];
        k := k + 1;
      }
      next := next + 1;
      assert group[..|group|] == group;
      block := "\n" + fileName + ":\n" + Join(texts, "\n");
      BlockOfTexts(fileName, group, texts, block);
    }

    /**
     * The callback of `resultsByFile[fileName].map` (provider.ts:118-124)
     * for the entry on row `lineNumber`: its text, and a link when it is
     * not a separator.
     */
    method RenderEntry(uri: string, searchResult: Entry, lineNumber: nat, searchQuery: SearchQuery,
                       matcher: Matcher)
      returns (text: string)
      requires uri in links
      modifies this
      ensures text == EntryText(searchResult)
      ensures uri in links && links == old(links)[uri := links[uri]]
      ensures links[uri] == old(links)[uri] + RowLinks(EntryRow(searchResult), lineNumber, searchQuery.query, matcher)
    {
      if searchResult.Separator? {
        assert links[uri] + [] == links[uri];
        return "  ..";
      }
      CreateDocumentLink(searchResult, lineNumber, searchQuery, uri, matcher);
      text := "  " + searchResult.line + ": " + searchResult.result;
    }

    /**
     * The `sortedFiles.map` pass (provider.ts:110-128): renders the files
     * in the given order, numbering rows from the header's row, and
     * collects the links of their entries.
     */
    method RenderFiles(uri: string, sortedFiles: seq<string>, resultsByFile: map<string, seq<Entry>>,
                       searchQuery: SearchQuery, matcher: Matcher)
      returns (lines: seq<string>)
      requires forall n :: 0 <= n < |sortedFiles| ==> sortedFiles[n] in resultsByFile
      requires uri in links && links[uri] == []
      modifies this
      ensures lines == FileBlocks(sortedFiles, resultsByFile)
      ensures uri in links && links == old(links)[uri := links[uri]]
      ensures links[uri] == LinksOf(Layout(sortedFiles, resultsByFile), searchQuery.query, matcher)
    {
      var lineNumber := 1;
      lines := [];
      var i := 0;
      assert sortedFiles[..0] == [];
      while i < |sortedFiles|
        invariant 0 <= i <= |sortedFiles|
        invariant lines == FileBlocks(sortedFiles[..i], resultsByFile)
        invariant lineNumber == RowCount(sortedFiles[..i], resultsByFile)
        invariant uri in links && links == old(links)[uri := links[uri]]
        invariant links[uri] == FilesLinks(sortedFiles[..i], resultsByFile, searchQuery.query, matcher)
      {
        var fileName := sortedFiles[i];
        var block;
        FileBlocksSnoc(sortedFiles, resultsByFile, i);
        ghost var before, start := links, lineNumber;
        block, lineNumber := RenderFile(uri, fileName, resultsByFile[fileName], lineNumber, searchQuery, matcher);
        UpdateTwice(old(links), uri, before[uri], links[uri]);
        calc {
          links[uri];
          before[uri] + GroupLinks(resultsByFile[fileName], start + 2, searchQuery.query, matcher);
          FilesLinks(sortedFiles[..i], resultsByFile, searchQuery.query, matcher)
          + GroupLinks(resultsByFile[sortedFiles[i]], RowCount(sortedFiles[..i], resultsByFile) + 2, searchQuery.query, matcher);
          { FilesLinksSnoc(sortedFiles, resultsByFile, i, searchQuery.query, matcher); }
          FilesLinks(sortedFiles[..i + 1], resultsByFile, searchQuery.query, matcher);
        }
        FilesLinksSnoc(sortedFiles, resultsByFile, i, searchQuery.query, matcher);
        lines := lines + [block];
        i := i + 1;
      }
      assert sortedFiles[..i] == sortedFiles;
      FilesLinksOfLayout(sortedFiles, resultsByFile, searchQuery.query, matcher);
    }

    /**
     * Renders the search `cmd` whose run ended as `run`, and replaces the
     * document's links by those created while rendering it; nothing else
     * in the link table changes.
     */
    method ProvideTextDocumentContent(uri: string, cmd: string, run: RunOutcome, matcher: Matcher)
      returns (content: string)
      modifies this
      ensures content == DocumentContent(cmd, run)
      ensures links == old(links)[uri := DocumentLinks(cmd, run, matcher)]
    {
      links := links[uri := []];
      var searchQuery := ParseSearchQuery(cmd);
      if run.Threw? {
        return run.message;
      }
      var searchResults := run.output;
      if |searchResults| == 0 {
        return "There was an error during your search!";
      }
      var resultsArray, resultsByFile := CollectResults(searchResults);

      var sortedFiles := SortedKeys(resultsByFile.Keys);
      var lines := RenderFiles(uri, sortedFiles, resultsByFile, searchQuery, matcher);
      var header := [Header(|resultsArray|, searchQuery.query)];
      content := Join(header + lines, "\n");
      RenderedSearch(cmd, run, matcher);
      UpdateTwice(old(links), uri, [], links[uri]);
    }

    /**
     * The document's links are reset on every render: rendering the same
     * search again gives the same document and leaves the same links as
     * rendering it once, with nothing accumulated.
     */
    method RenderTwice(uri: string, cmd: string, run: RunOutcome, matcher: Matcher)
      returns (first: string, second: string)
      modifies this
      ensures first == second == DocumentContent(cmd, run)
      ensures links == old(links)[uri := DocumentLinks(cmd, run, matcher)]
    {
      first := ProvideTextDocumentContent(uri, cmd, run, matcher);
      second := ProvideTextDocumentContent(uri, cmd, run, matcher);
      UpdateTwice(old(links), uri, DocumentLinks(cmd, run, matcher), DocumentLinks(cmd, run, matcher));
    }
  }

  // ---------------------------------------------------------------------------
  // what the rendered document shows

  lemma HeaderNoNewline(count: nat, query: string)
    requires NoNewline(query)
    ensures NoNewline(Header(count, query))
  {
    NatToStringNoNewline(count);
  }

  /** The header has as many newlines as the query. */
  lemma HeaderNewlines(count: nat, query: string)
    ensures Newlines(Header(count, query)) == Newlines(query)
  {
    var front := NatToString(count) + " search results found for \"";
    HeaderNoNewline(count, "");
    assert Header(count, "") == front + "\"";
    assert NoNewline(front);
    assert Header(count, query) == front + query + "\"";
    NewlinesAround(front, query, "\"");
  }

  lemma NewlinesAround(a: string, q: string, b: string)
    requires NoNewline(a) && NoNewline(b)
    ensures Newlines(a + q + b) == Newlines(q)
  {
    NewlinesZero(a);
    NewlinesZero(b);
    NewlinesAppend(a, q);
    NewlinesAppend(a + q, b);
  }

  lemma SearchRenderable(output: string)
    ensures var res := SearchResults(output);
            Renderable(SortedKeys(res.Keys), res)
  {
    var res := SearchResults(output);
    var files := SortedKeys(res.Keys);
    forall i | 0 <= i < |files|
      ensures && files[i] in res && NoNewline(files[i]) && |res[files[i]]| > 0
              && forall k :: 0 <= k < |res[files[i]]| ==> Clean(res[files[i]][k])
    {
      assert files[i] in res;
      assert Clean(res[files[i]][0]);
    }
  }

  /** Every entry row shows an entry of the search's results, filed under its own file. */
  lemma RowsShowResults(output: string)
    ensures var res := SearchResults(output);
            var rows := DocumentRows(output);
            forall r :: 0 <= r < |rows| && rows[r].EntryRow? ==>
              var e := rows[r].entry;
              e.file in res && e in res[e.file] && WellParsed(e)
  {
    var rows := DocumentRows(output);
    forall r | 0 <= r < |rows| && rows[r].EntryRow?
      ensures var e := rows[r].entry;
              e.file in SearchResults(output) && e in SearchResults(output)[e.file] && WellParsed(e)
    {
      RowShowsResult(output, r);
    }
  }

  lemma RowShowsResult(output: string, r: nat)
    requires r < |DocumentRows(output)| && DocumentRows(output)[r].EntryRow?
    ensures var res, e := SearchResults(output), DocumentRows(output)[r].entry;
            e.file in res && e in res[e.file] && WellParsed(e)
  {
    var res := SearchResults(output);
    var files := SortedKeys(res.Keys);
    LayoutEntryInGroup(files, res, r);
    GroupMember(files, res, DocumentRows(output)[r].entry);
  }

  /** An entry of some file's group, when every group holds only well-parsed entries of its own file. */
  lemma GroupMember(files: seq<string>, groups: map<string, seq<Entry>>, e: Entry)
    requires InSomeGroup(files, groups, e)
    requires forall f :: f in groups ==> forall k :: 0 <= k < |groups[f]| ==>
               groups[f][k].file == f && WellParsed(groups[f][k])
    ensures e.file in groups && e in groups[e.file] && WellParsed(e)
  {
    var i :| 0 <= i < |files| && files[i] in groups && e in groups[files[i]];
    var k :| 0 <= k < |groups[files[i]]| && groups[files[i]][k] == e;
  }

  /**
   * Splitting the document at newlines gives its rows: the header, whose
   * number counts the non-empty lines of the output, then per file in
   * sorted order a blank line, `{file}:` and one line per entry.
   */
  lemma RenderedDocument(cmd: string, output: string)
    requires output != [] && NoNewline(ParseSearchQuery(cmd).query)
    ensures var lines := Split(DocumentContent(cmd, Returned(output)));
            var header := Header(|OutputLines(output)|, ParseSearchQuery(cmd).query);
            && lines == RowTexts(header, DocumentRows(output))
            && lines[0] == header
  {
    var res := SearchResults(output);
    var header := Header(|OutputLines(output)|, ParseSearchQuery(cmd).query);
    HeaderNoNewline(|OutputLines(output)|, ParseSearchQuery(cmd).query);
    SearchRenderable(output);
    RenderedRows(header, SortedKeys(res.Keys), res);
  }

  /**
   * Each link of a rendered search sits on a line that shows a result of
   * the search whose text the query matches, as `  {line}: {text}`, and
   * opens that result's file at its line.
   */
  lemma LinksShowTheirResults(cmd: string, output: string, matcher: Matcher)
    requires output != [] && NoNewline(ParseSearchQuery(cmd).query)
    ensures |Split(DocumentContent(cmd, Returned(output)))| == |DocumentRows(output)|
    ensures var lines := Split(DocumentContent(cmd, Returned(output)));
            var rows := DocumentRows(output);
            var res := SearchResults(output);
            var q := ParseSearchQuery(cmd).query;
            var links := DocumentLinks(cmd, Returned(output), matcher);
            forall j :: 0 <= j < |links| ==>
              var r := links[j].range.start.line;
              && r < |rows| && rows[r].EntryRow? && rows[r].entry.Line?
              && var e := rows[r].entry;
              && e.file in res && e in res[e.file]
              && lines[r] == "  " + e.line + ": " + e.result
              && matcher(q, e.result).Some?
              && links[j].target == Target(e.file, e.line)
  {
    var rows := DocumentRows(output);
    var q := ParseSearchQuery(cmd).query;
    RenderedDocument(cmd, output);
    RowsShowResults(output);
    LinksShowEntries(Header(|OutputLines(output)|, q), rows, q, matcher);
  }

  /**
   * With any query, the document split at newlines is the header's lines
   * followed by the other rows, so row `r` of the rows is shown on line
   * `r + n` for a query holding `n` newlines.
   */
  lemma RenderedRowsShifted(cmd: string, output: string)
    requires output != []
    ensures var q := ParseSearchQuery(cmd).query;
            ShownBelowHeader(Split(DocumentContent(cmd, Returned(output))), Header(|OutputLines(output)|, q),
                             DocumentRows(output), Newlines(q))
  {
    var res := SearchResults(output);
    var q := ParseSearchQuery(cmd).query;
    SearchRenderable(output);
    HeaderNewlines(|OutputLines(output)|, q);
    RenderedRowsBelowHeader(Header(|OutputLines(output)|, q), SortedKeys(res.Keys), res);
  }

  /**
   * What `LinksShiftedByQueryNewlines` states about the link `l`: its row
   * `r` shows an entry of `res` filed under its file, line `r + n` of the
   * document shows that entry as `  {line}: {text}`, the query matches
   * the text and the link opens the entry's file at its line.
   */
  ghost predicate ShowsResultBelow(lines: seq<string>, rows: seq<Row>, res: map<string, seq<Entry>>,
                                   q: string, n: nat, matcher: Matcher, l: Link)
  {
    && LinkShownBelow(lines, rows, q, matcher, n, l)
    && var e := rows[l.range.start.line].entry;
    && e.file in res && e in res[e.file]
  }

  /**
   * The source numbers the header as one row (provider.ts:111), so for a
   * query holding `n` newlines each link sits `n` rows above the line
   * that shows its result: that line is `lines[r + n]` for the link's
   * row `r`, and `lines[r]` only when the query has no newline.
   */
  lemma LinksShiftedByQueryNewlines(cmd: string, output: string, matcher: Matcher)
    requires output != []
    ensures var lines := Split(DocumentContent(cmd, Returned(output)));
            var q := ParseSearchQuery(cmd).query;
            var links := DocumentLinks(cmd, Returned(output), matcher);
            forall j :: 0 <= j < |links| ==>
              ShowsResultBelow(lines, DocumentRows(output), SearchResults(output), q, Newlines(q), matcher, links[j])
  {
    var res := SearchResults(output);
    var q := ParseSearchQuery(cmd).query;
    SearchRenderable(output);
    RowsShowResults(output);
    ShiftedLinksShowResults(|OutputLines(output)|, Header(|OutputLines(output)|, q), SortedKeys(res.Keys), res,
                            Split(DocumentContent(cmd, Returned(output))), DocumentRows(output),
                            DocumentLinks(cmd, Returned(output), matcher), q, Newlines(q), matcher);
  }

  /**
   * `LinksBelowHeader` for the links of a rendering whose rows show the
   * entries of `res`, as `LinksShiftedByQueryNewlines` needs it.
   */
  lemma ShiftedLinksShowResults(count: nat, header: string, files: seq<string>, res: map<string, seq<Entry>>,
                                lines: seq<string>, rows: seq<Row>, links: seq<Link>,
                                q: string, n: nat, matcher: Matcher)
    requires Renderable(files, res) && header == Header(count, q)
    requires lines == Split(Content(header, files, res)) && rows == Layout(files, res)
    requires links == LinksOf(rows, q, matcher) && n == Newlines(q)
    requires forall r :: 0 <= r < |rows| && rows[r].EntryRow? ==>
               var e := rows[r].entry;
               e.file in res && e in res[e.file] && WellParsed(e)
    ensures forall j :: 0 <= j < |links| ==> ShowsResultBelow(lines, rows, res, q, n, matcher, links[j])
  {
    HeaderNewlines(count, q);
    LinksBelowHeader(header, files, res, q, matcher);
  }

  /** What `LinkColumns` states about the link `links[j]` on the line `lines[r]`. */
  ghost predicate StartsAtColumn(lines: seq<string>, rows: seq<Row>, l: Link)
  {
    var r := l.range.start.line;
    && r < |rows| && r < |lines| && rows[r].EntryRow? && rows[r].entry.Line? && WellParsed(rows[r].entry)
    && var e := rows[r].entry;
    && (e.column.None? ==> l.range.start.character.NaN?)
    && (e.column.Some? && 1 <= DigitsValue(e.column.value) <= |e.result| + 1 ==>
          var c := DigitsValue(e.column.value);
          && l.range.start.character == Int(Preamble(e.line) + c)
          && Preamble(e.line) + c <= |lines[r]| && lines[r][Preamble(e.line) + c..] == e.result[c - 1..])
  }

  lemma LinkColumnAt(lines: seq<string>, header: string, rows: seq<Row>, q: string, matcher: Matcher, l: Link)
    requires lines == RowTexts(header, rows)
    requires LinkShowsEntry(header, rows, q, matcher, l)
    requires WellParsed(rows[l.range.start.line].entry)
    ensures StartsAtColumn(lines, rows, l)
  {
  }

  /**
   * A link starts where ripgrep's 1-based column puts the match on the
   * rendered line: from there on the line is the result's text from that
   * column on. A context line has no column, and its link starts at `NaN`.
   */
  lemma LinkColumns(cmd: string, output: string, matcher: Matcher)
    requires output != [] && NoNewline(ParseSearchQuery(cmd).query)
    ensures var links := DocumentLinks(cmd, Returned(output), matcher);
            forall j :: 0 <= j < |links| ==>
              StartsAtColumn(Split(DocumentContent(cmd, Returned(output))), DocumentRows(output), links[j])
  {
    var lines := Split(DocumentContent(cmd, Returned(output)));
    var rows := DocumentRows(output);
    var q := ParseSearchQuery(cmd).query;
    var header := Header(|OutputLines(output)|, q);
    var links := DocumentLinks(cmd, Returned(output), matcher);
    RenderedDocument(cmd, output);
    RowsShowResults(output);
    LinksShowEntries(header, rows, q, matcher);
    forall j | 0 <= j < |links|
      ensures StartsAtColumn(lines, rows, links[j])
    {
      LinkColumnAt(lines, header, rows, q, matcher, links[j]);
    }
  }
}
