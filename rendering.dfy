/**
 * The rendering pass of `provideTextDocumentContent` (provider.ts:110-132)
 * and the link built by `createDocumentLink` (provider.ts:139-161).
 *
 * The rendered document is described twice: as the string the source
 * builds (`Content`, a `join('\n')` of the header and one block per file)
 * and as the list of rows a reader sees (`Layout`), where each row
 * remembers what it displays. `RenderedRows` proves that splitting the
 * string at newlines gives exactly the rows; links are then stated
 * against row indices.
 */
module Rendering {
  import opened Wrappers
  import opened Text
  import opened Classifier

  /** A JavaScript number, as far as this code produces them: an integer or `NaN`. */
  datatype Num = Int(value: int) | NaN

  /** `+` on JavaScript numbers: `NaN` absorbs. */
  function Plus(a: Num, b: Num): Num
  {
    if a.Int? && b.Int? then Int(a.value + b.value) else NaN
  }

  /** `vscode.Position`, `vscode.Range` and `vscode.DocumentLink`, as plain records. */
  datatype Position = Position(line: nat, character: Num)
  datatype Range = Range(start: Position, end: Position)
  /** The URI `file:///{file}#{line}` a link opens. */
  datatype Target = Target(file: string, line: string)
  datatype Link = DocumentLink(range: Range, target: Target)

  /**
   * The user's query, tried as a JavaScript regular expression on a
   * result's text: the length of the first match, or nothing. The regular
   * expression engine is not modelled.
   */
  type Matcher = (string, string) -> Option<nat>

  /** `parseInt(column, 10)`: `NaN` for `undefined`, else the value of the leading digits. */
  function ParseColumn(column: Option<string>): Num
  {
    match column
    case None => NaN
    case Some(d) =>
      var n := DigitRun(d, 0);
      if n == 0 then NaN else Int(DigitsValue(d[..n]))
  }

  /** The width of `  {line}:`, the `preamble` of provider.ts:146. */
  function Preamble(line: string): nat
  {
    |"  " + line + ":"|
  }

  /**
   * The links `createDocumentLink` adds for the entry `e` rendered on row
   * `lineNumber`: none when the query does not match the entry's text,
   * otherwise one link on that row, from `preamble + col` for the length of
   * the match, opening the entry's file at its line.
   */
  function LinkFor(e: Entry, lineNumber: nat, query: string, matcher: Matcher): (r: seq<Link>)
    requires e.Line?
    ensures |r| <= 1
    ensures r == [] <==> matcher(query, e.result).None?
    ensures r != [] ==>
              && r[0].range.start.line == lineNumber && r[0].range.end.line == lineNumber
              && r[0].target == Target(e.file, e.line)
              && r[0].range.start.character == Plus(Int(Preamble(e.line)), ParseColumn(e.column))
              && r[0].range.end.character ==
                   Plus(r[0].range.start.character, Int(matcher(query, e.result).value))
    ensures r != [] && e.column.None? ==> r[0].range.start.character.NaN?
  {
    var col := ParseColumn(e.column);
    var preamble := Preamble(e.line);
    match matcher(query, e.result)
    case None => []
    case Some(searchTerm) =>
      var start := Plus(Int(preamble), col);
      [DocumentLink(Range(Position(lineNumber, start), Position(lineNumber, Plus(start, Int(searchTerm)))),
                    Target(e.file, e.line))]
  }

  /**
   * The start of a match entry's link is the rendered position of
   * ripgrep's 1-based column `col` inside `  {line}: {result}`: the
   * rendered row from there on is the result's text from that column on.
   */
  lemma LinkColumnIsRenderedColumn(e: Entry, lineNumber: nat, query: string, matcher: Matcher)
    requires e.Line? && e.column.Some? && AllDigits(e.column.value)
    requires 1 <= DigitsValue(e.column.value) <= |e.result| + 1
    requires matcher(query, e.result).Some?
    ensures var l := LinkFor(e, lineNumber, query, matcher)[0];
            var c := DigitsValue(e.column.value);
            && l.range.start.character == Int(Preamble(e.line) + c)
            && Preamble(e.line) + c <= |EntryText(e)|
            && EntryText(e)[Preamble(e.line) + c..] == e.result[c - 1..]
  {
    var d := e.column.value;
    DigitRunIs(d, 0, |d|);
    assert d[..|d|] == d;
    var c := DigitsValue(d);
    var text := EntryText(e);
    var p := Preamble(e.line);
    assert text == ("  " + e.line + ":") + " " + e.result;
    assert |text| == p + 1 + |e.result|;
    assert text[p + c..] == e.result[c - 1..];
  }

  // ---------------------------------------------------------------------------
  // the rendered string

  /** An entry's row: `  ..` for a separator, `  {line}: {result}` otherwise. */
  function EntryText(e: Entry): string
  {
    if e.Separator? then "  .." else "  " + e.line + ": " + e.result
  }

  function EntryTexts(g: seq<Entry>): seq<string>
  {
    seq(|g|, k requires 0 <= k < |g| => EntryText(g[k]))
  }

  /** The string the `sortedFiles.map` callback returns for one file. */
  function FileBlock(file: string, g: seq<Entry>): string
  {
    "\n" + file + ":\n" + Join(EntryTexts(g), "\n")
  }

  function FileBlocks(files: seq<string>, groups: map<string, seq<Entry>>): seq<string>
    requires forall i :: 0 <= i < |files| ==> files[i] in groups
  {
    seq(|files|, i requires 0 <= i < |files| => FileBlock(files[i], groups[files[i]]))
  }

  /** `[header].concat(lines).join('\n')`. */
  function Content(header: string, files: seq<string>, groups: map<string, seq<Entry>>): string
    requires forall i :: 0 <= i < |files| ==> files[i] in groups
  {
    Join([header] + FileBlocks(files, groups), "\n")
  }

  // ---------------------------------------------------------------------------
  // the rendered rows

  /** What one row of the rendered document shows. */
  datatype Row = HeaderRow | BlankRow | FileRow(file: string) | EntryRow(entry: Entry)

  function RowText(header: string, row: Row): string
  {
    match row
    case HeaderRow => header
    case BlankRow => ""
    case FileRow(f) => f + ":"
    case EntryRow(e) => EntryText(e)
  }

  function RowTexts(header: string, rows: seq<Row>): seq<string>
  {
    seq(|rows|, r requires 0 <= r < |rows| => RowText(header, rows[r]))
  }

  function EntryRows(g: seq<Entry>): seq<Row>
  {
    seq(|g|, k requires 0 <= k < |g| => EntryRow(g[k]))
  }

  /** The rows of one file: a blank row, the file's name, then its entries. */
  function FileRows(file: string, g: seq<Entry>): seq<Row>
  {
    [BlankRow, FileRow(file)] + EntryRows(g)
  }

  function FilesRows(files: seq<string>, groups: map<string, seq<Entry>>): seq<Row>
    requires forall i :: 0 <= i < |files| ==> files[i] in groups
  {
    if files == [] then []
    else FileRows(files[0], groups[files[0]]) + FilesRows(files[1..], groups)
  }

  /** The rows of the document: the header, then each file's rows in the given order. */
  function Layout(files: seq<string>, groups: map<string, seq<Entry>>): seq<Row>
    requires forall i :: 0 <= i < |files| ==> files[i] in groups
  {
    [HeaderRow] + FilesRows(files, groups)
  }

  lemma {:induction false} FilesRowsSnoc(files: seq<string>, groups: map<string, seq<Entry>>)
    requires |files| > 0
    requires forall i :: 0 <= i < |files| ==> files[i] in groups
    ensures FilesRows(files, groups) ==
            FilesRows(files[..|files| - 1], groups) + FileRows(files[|files| - 1], groups[files[|files| - 1]])
  {
    if |files| > 1 {
      FilesRowsSnoc(files[1..], groups);
      assert files[1..][..|files| - 2] == files[..|files| - 1][1..];
      ConcatAssoc(FileRows(files[0], groups[files[0]]), FilesRows(files[1..|files| - 1], groups),
                  FileRows(files[|files| - 1], groups[files[|files| - 1]]));
    } else {
      assert files[..0] == [];
    }
  }

  /** `e` is an entry of the group of one of `files`. */
  ghost predicate InSomeGroup(files: seq<string>, groups: map<string, seq<Entry>>, e: Entry)
  {
    exists i :: 0 <= i < |files| && files[i] in groups && e in groups[files[i]]
  }

  /** Every entry row of the rendered files shows an entry of one of their groups. */
  lemma {:induction false} FilesRowsEntries(files: seq<string>, groups: map<string, seq<Entry>>)
    requires forall i :: 0 <= i < |files| ==> files[i] in groups
    ensures forall r :: 0 <= r < |FilesRows(files, groups)| && FilesRows(files, groups)[r].EntryRow? ==>
              InSomeGroup(files, groups, FilesRows(files, groups)[r].entry)
  {
    if files != [] {
      FilesRowsEntries(files[1..], groups);
      var head := FileRows(files[0], groups[files[0]]);
      var tail := FilesRows(files[1..], groups);
      var all: seq<Row> := head + tail;
      assert FilesRows(files, groups) == all;
      forall r | 0 <= r < |all| && all[r].EntryRow?
        ensures InSomeGroup(files, groups, all[r].entry)
      {
        if r < |head| {
          assert all[r] == head[r] == EntryRow(groups[files[0]][r - 2]);
        } else {
          var e := all[r].entry;
          assert tail[r - |head|] == all[r];
          var i :| 0 <= i < |files[1..]| && files[1..][i] in groups && e in groups[files[1..][i]];
          assert files[i + 1] == files[1..][i];
        }
      }
    }
  }

  /** An entry row of the layout shows an entry of one of the groups. */
  lemma LayoutEntryInGroup(files: seq<string>, groups: map<string, seq<Entry>>, r: nat)
    requires forall i :: 0 <= i < |files| ==> files[i] in groups
    requires r < |Layout(files, groups)| && Layout(files, groups)[r].EntryRow?
    ensures InSomeGroup(files, groups, Layout(files, groups)[r].entry)
  {
    var fr := FilesRows(files, groups);
    FilesRowsEntries(files, groups);
    assert fr[r - 1] == Layout(files, groups)[r];
  }

  /** Groups whose text fits on rows and which are never empty. */
  ghost predicate Renderable(files: seq<string>, groups: map<string, seq<Entry>>)
  {
    forall i :: 0 <= i < |files| ==>
      && files[i] in groups && NoNewline(files[i]) && |groups[files[i]]| > 0
      && forall k :: 0 <= k < |groups[files[i]]| ==> Clean(groups[files[i]][k])
  }

  lemma RowTextsAppend(header: string, a: seq<Row>, b: seq<Row>)
    ensures RowTexts(header, a + b) == RowTexts(header, a) + RowTexts(header, b)
  {
  }

  lemma BlockShape(file: string, j: string)
    ensures "\n" + file + ":\n" + j == "" + "\n" + ((file + ":") + "\n" + j)
  {
    var name := file + ":";
    ConcatAssoc("\n" + file, ":", "\n");
    ConcatAssoc("\n", file, ":");
    ConcatAssoc("\n", name, "\n");
    ConcatAssoc("\n", name + "\n", j);
    ConcatAssoc(name, "\n", j);
    assert ":\n" == ":" + "\n";
  }

  lemma FileBlockRows(header: string, file: string, g: seq<Entry>)
    requires NoNewline(file) && |g| > 0 && forall k :: 0 <= k < |g| ==> Clean(g[k])
    ensures Split(FileBlock(file, g)) == RowTexts(header, FileRows(file, g))
  {
    BlockSplit(file, g);
    FileRowTexts(header, file, g);
  }

  /** The pieces of a file's block: an empty one, the file's name, then one per entry. */
  lemma BlockSplit(file: string, g: seq<Entry>)
    requires NoNewline(file) && |g| > 0 && forall k :: 0 <= k < |g| ==> Clean(g[k])
    ensures Split(FileBlock(file, g)) == [""] + [file + ":"] + EntryTexts(g)
  {
    var texts := EntryTexts(g);
    var j := Join(texts, "\n");
    EntryTextsSplit(g);
    var name := file + ":";
    BlockShape(file, j);
    SplitAppend("", name + "\n" + j);
    SplitAppend(name, j);
    SplitNoNewline(name);
  }

  lemma EntryTextsSplit(g: seq<Entry>)
    requires |g| > 0 && forall k :: 0 <= k < |g| ==> Clean(g[k])
    ensures Split(Join(EntryTexts(g), "\n")) == EntryTexts(g)
  {
    var texts := EntryTexts(g);
    forall k | 0 <= k < |texts| ensures NoNewline(texts[k]) {
      assert Clean(g[k]);
    }
    SplitJoin(texts);
  }

  lemma FileRowTexts(header: string, file: string, g: seq<Entry>)
    ensures RowTexts(header, FileRows(file, g)) == [""] + [file + ":"] + EntryTexts(g)
  {
    assert RowTexts(header, EntryRows(g)) == EntryTexts(g);
    RowTextsAppend(header, [BlankRow, FileRow(file)], EntryRows(g));
  }

  lemma {:induction false} FileBlocksRows(header: string, files: seq<string>, groups: map<string, seq<Entry>>)
    requires |files| > 0 && Renderable(files, groups)
    ensures Split(Join(FileBlocks(files, groups), "\n")) == RowTexts(header, FilesRows(files, groups))
  {
    var blocks := FileBlocks(files, groups);
    FileBlockRows(header, files[0], groups[files[0]]);
    RowTextsAppend(header, FileRows(files[0], groups[files[0]]), FilesRows(files[1..], groups));
    if |files| == 1 {
      assert FilesRows(files[1..], groups) == [];
    } else {
      FileBlocksRows(header, files[1..], groups);
      assert blocks == [blocks[0]] + FileBlocks(files[1..], groups);
      SplitOfJoin(blocks[0], FileBlocks(files[1..], groups));
    }
  }

  /**
   * `content.split('\n')` is exactly the rendered rows: row 0 the header,
   * then per file a blank row, the file's name and one row per entry.
   */
  lemma RenderedRows(header: string, files: seq<string>, groups: map<string, seq<Entry>>)
    requires NoNewline(header) && Renderable(files, groups)
    ensures Split(Content(header, files, groups)) == RowTexts(header, Layout(files, groups))
  {
    var blocks := FileBlocks(files, groups);
    RowTextsAppend(header, [HeaderRow], FilesRows(files, groups));
    if files == [] {
      assert [header] + blocks == [header];
      SplitNoNewline(header);
    } else {
      FileBlocksRows(header, files, groups);
      SplitOfJoin(header, blocks);
      SplitNoNewline(header);
    }
  }

  /**
   * With any header, `content.split('\n')` is the header's own pieces
   * followed by the rows of the files: a header holding newlines takes
   * more than one line.
   */
  lemma RenderedRowsAnyHeader(header: string, files: seq<string>, groups: map<string, seq<Entry>>)
    requires Renderable(files, groups)
    ensures Split(Content(header, files, groups)) == Split(header) + RowTexts(header, FilesRows(files, groups))
  {
    var blocks := FileBlocks(files, groups);
    if files == [] {
      assert [header] + blocks == [header];
      assert FilesRows(files, groups) == [];
      assert Split(header) + [] == Split(header);
    } else {
      FileBlocksRows(header, files, groups);
      SplitOfJoin(header, blocks);
    }
  }

  /**
   * `lines` holds the `n + 1` lines of `header` and then one line per row
   * after the first: row `r` of `rows` is line `r + n`.
   */
  ghost predicate ShownBelowHeader(lines: seq<string>, header: string, rows: seq<Row>, n: nat)
  {
    && 0 < |rows| && |lines| == |rows| + n
    && lines[..n + 1] == Split(header)
    && forall r :: 1 <= r < |rows| ==> lines[r + n] == RowTexts(header, rows)[r]
  }

  /** Row `r` of the layout is line `r + n` of the rendered string when the header holds `n` newlines. */
  lemma RenderedRowsBelowHeader(header: string, files: seq<string>, groups: map<string, seq<Entry>>)
    requires Renderable(files, groups)
    ensures ShownBelowHeader(Split(Content(header, files, groups)), header, Layout(files, groups), Newlines(header))
  {
    RenderedRowsAnyHeader(header, files, groups);
    SplitLength(header);
    ShiftedRows(Split(Content(header, files, groups)), Split(header), header, FilesRows(files, groups), Newlines(header));
  }

  /** Lines made of `pieces` for the header and the texts of `below`, indexed by the rows `[HeaderRow] + below`. */
  lemma ShiftedRows(lines: seq<string>, pieces: seq<string>, header: string, below: seq<Row>, n: nat)
    requires lines == pieces + RowTexts(header, below) && |pieces| == n + 1
    ensures |lines| == |[HeaderRow] + below| + n
    ensures lines[..n + 1] == pieces
    ensures forall r :: 1 <= r < |[HeaderRow] + below| ==> lines[r + n] == RowTexts(header, [HeaderRow] + below)[r]
  {
    forall r | 1 <= r < |[HeaderRow] + below|
      ensures lines[r + n] == RowTexts(header, [HeaderRow] + below)[r]
    {
      assert ([HeaderRow] + below)[r] == below[r - 1];
    }
  }

  // ---------------------------------------------------------------------------
  // the links of the rendered rows

  /** The links created while rendering `row` as row number `r`. */
  function RowLinks(row: Row, r: nat, query: string, matcher: Matcher): seq<Link>
  {
    if row.EntryRow? && row.entry.Line? then LinkFor(row.entry, r, query, matcher) else []
  }

  /** The links created while rendering `rows`, in order, each on its row's index. */
  function LinksOf(rows: seq<Row>, query: string, matcher: Matcher): seq<Link>
  {
    if rows == [] then []
    else LinksOf(rows[..|rows| - 1], query, matcher)
         + RowLinks(rows[|rows| - 1], |rows| - 1, query, matcher)
  }

  lemma LinksOfSnoc(rows: seq<Row>, row: Row, query: string, matcher: Matcher)
    ensures LinksOf(rows + [row], query, matcher) ==
            LinksOf(rows, query, matcher) + RowLinks(row, |rows|, query, matcher)
  {
    assert (rows + [row])[..|rows|] == rows;
  }

  /** The links created while rendering the entries `g` on the rows from `start` on. */
  function GroupLinks(g: seq<Entry>, start: nat, query: string, matcher: Matcher): seq<Link>
  {
    if g == [] then []
    else GroupLinks(g[..|g| - 1], start, query, matcher)
         + RowLinks(EntryRow(g[|g| - 1]), start + |g| - 1, query, matcher)
  }

  /** Rendering a group after `rows` adds the group's links after those of `rows`. */
  lemma {:induction false} LinksOfEntryRows(rows: seq<Row>, g: seq<Entry>, query: string, matcher: Matcher)
    ensures LinksOf(rows + EntryRows(g), query, matcher) ==
            LinksOf(rows, query, matcher) + GroupLinks(g, |rows|, query, matcher)
  {
    if g == [] {
      assert rows + EntryRows(g) == rows;
    } else {
      var n := |g| - 1;
      var front := rows + EntryRows(g[..n]);
      var last := EntryRow(g[n]);
      var before, tail := LinksOf(rows, query, matcher), RowLinks(last, |rows| + n, query, matcher);
      calc {
        LinksOf(rows + EntryRows(g), query, matcher);
        { EntryRowsSnoc(rows, g); }
        LinksOf(front + [last], query, matcher);
        { LinksOfSnoc(front, last, query, matcher); assert |front| == |rows| + n; }
        LinksOf(front, query, matcher) + tail;
        { LinksOfEntryRows(rows, g[..n], query, matcher); }
        (before + GroupLinks(g[..n], |rows|, query, matcher)) + tail;
        { ConcatAssoc(before, GroupLinks(g[..n], |rows|, query, matcher), tail); }
        before + (GroupLinks(g[..n], |rows|, query, matcher) + tail);
        { GroupLinksSnoc(g, |rows|, query, matcher); }
        before + GroupLinks(g, |rows|, query, matcher);
      }
    }
  }

  lemma GroupLinksSnoc(g: seq<Entry>, start: nat, query: string, matcher: Matcher)
    requires |g| > 0
    ensures GroupLinks(g, start, query, matcher) ==
            GroupLinks(g[..|g| - 1], start, query, matcher) + RowLinks(EntryRow(g[|g| - 1]), start + (|g| - 1), query, matcher)
  {
  }

  lemma EntryRowsSnoc(rows: seq<Row>, g: seq<Entry>)
    requires |g| > 0
    ensures rows + EntryRows(g) == (rows + EntryRows(g[..|g| - 1])) + [EntryRow(g[|g| - 1])]
  {
    var n := |g| - 1;
    assert EntryRows(g) == EntryRows(g[..n]) + [EntryRow(g[n])];
    ConcatAssoc(rows, EntryRows(g[..n]), [EntryRow(g[n])]);
  }

  /**
   * Every link sits on the row that displays the entry it was made for and
   * is the link `createDocumentLink` makes for that entry there.
   */
  lemma {:induction false} LinksOnEntryRows(rows: seq<Row>, query: string, matcher: Matcher)
    ensures forall j :: 0 <= j < |LinksOf(rows, query, matcher)| ==>
              var l := LinksOf(rows, query, matcher)[j];
              var r := l.range.start.line;
              && r < |rows| && rows[r].EntryRow? && rows[r].entry.Line?
              && LinkFor(rows[r].entry, r, query, matcher) == [l]
  {
    if rows != [] {
      var n := |rows| - 1;
      var prefix := rows[..n];
      LinksOnEntryRows(prefix, query, matcher);
      var before := LinksOf(prefix, query, matcher);
      var all := LinksOf(rows, query, matcher);
      assert all == before + RowLinks(rows[n], n, query, matcher);
      forall j | 0 <= j < |all|
        ensures var r := all[j].range.start.line;
                r < |rows| && rows[r].EntryRow? && rows[r].entry.Line?
                && LinkFor(rows[r].entry, r, query, matcher) == [all[j]]
      {
        if j < |before| {
          assert all[j] == before[j];
          assert rows[before[j].range.start.line] == prefix[before[j].range.start.line];
        }
      }
    }
  }

  /**
   * What a link made on an entry row shows: the row's text is the entry's
   * `  {line}: {text}`, the query matches that text, the link opens the
   * entry's file at its line, and its start is the rendered position of
   * the entry's column (`NaN` for a context line).
   */
  ghost predicate LinkShowsEntry(header: string, rows: seq<Row>, query: string, matcher: Matcher, l: Link)
  {
    var r := l.range.start.line;
    && r < |rows| && rows[r].EntryRow? && rows[r].entry.Line?
    && var e := rows[r].entry;
    && RowTexts(header, rows)[r] == "  " + e.line + ": " + e.result
    && matcher(query, e.result).Some?
    && l.target == Target(e.file, e.line)
    && (e.column.None? ==> l.range.start.character.NaN?)
    && (e.column.Some? && AllDigits(e.column.value) && 1 <= DigitsValue(e.column.value) <= |e.result| + 1 ==>
          var c := DigitsValue(e.column.value);
          && l.range.start.character == Int(Preamble(e.line) + c)
          && Preamble(e.line) + c <= |RowTexts(header, rows)[r]|
          && RowTexts(header, rows)[r][Preamble(e.line) + c..] == e.result[c - 1..])
  }

  lemma LinksShowEntries(header: string, rows: seq<Row>, query: string, matcher: Matcher)
    ensures forall j :: 0 <= j < |LinksOf(rows, query, matcher)| ==>
              LinkShowsEntry(header, rows, query, matcher, LinksOf(rows, query, matcher)[j])
  {
    var links := LinksOf(rows, query, matcher);
    LinksOnEntryRows(rows, query, matcher);
    forall j | 0 <= j < |links|
      ensures LinkShowsEntry(header, rows, query, matcher, links[j])
    {
      var r := links[j].range.start.line;
      var e := rows[r].entry;
      assert LinkFor(e, r, query, matcher) == [links[j]];
      assert RowTexts(header, rows)[r] == EntryText(e);
      if e.column.Some? && AllDigits(e.column.value) && 1 <= DigitsValue(e.column.value) <= |e.result| + 1 {
        LinkColumnIsRenderedColumn(e, r, query, matcher);
      }
    }
  }

  /**
   * The link `l` sits on the row `r` of an entry of `rows` that line
   * `r + n` of `lines` shows as `  {line}: {text}`; the query matches the
   * text and the link opens the entry's file at its line.
   */
  ghost predicate LinkShownBelow(lines: seq<string>, rows: seq<Row>, query: string, matcher: Matcher, n: nat, l: Link)
  {
    var r := l.range.start.line;
    && r < |rows| && rows[r].EntryRow? && rows[r].entry.Line?
    && var e := rows[r].entry;
    && r + n < |lines|
    && lines[r + n] == "  " + e.line + ": " + e.result
    && matcher(query, e.result).Some?
    && l.target == Target(e.file, e.line)
  }

  /**
   * Each link on row `r` of the layout is shown on line `r + n` of the
   * rendered string, `n` being the number of newlines in the header.
   */
  lemma LinksBelowHeader(header: string, files: seq<string>, groups: map<string, seq<Entry>>,
                         query: string, matcher: Matcher)
    requires Renderable(files, groups)
    ensures var lines, rows, n := Split(Content(header, files, groups)), Layout(files, groups), Newlines(header);
            var links := LinksOf(rows, query, matcher);
            forall j :: 0 <= j < |links| ==> LinkShownBelow(lines, rows, query, matcher, n, links[j])
  {
    var rows := Layout(files, groups);
    RenderedRowsBelowHeader(header, files, groups);
    assert rows[0] == HeaderRow;
    LinksBelowRows(Split(Content(header, files, groups)), header, rows, Newlines(header), query, matcher);
  }

  /** `LinksBelowHeader` for any lines that show the header and then the rows. */
  lemma LinksBelowRows(lines: seq<string>, header: string, rows: seq<Row>, n: nat, query: string, matcher: Matcher)
    requires ShownBelowHeader(lines, header, rows, n) && rows[0] == HeaderRow
    ensures forall j :: 0 <= j < |LinksOf(rows, query, matcher)| ==>
              LinkShownBelow(lines, rows, query, matcher, n, LinksOf(rows, query, matcher)[j])
  {
    var links := LinksOf(rows, query, matcher);
    LinksShowEntries(header, rows, query, matcher);
    forall j | 0 <= j < |links|
      ensures LinkShownBelow(lines, rows, query, matcher, n, links[j])
    {
      assert LinkShowsEntry(header, rows, query, matcher, links[j]);
    }
  }

  /** The links are in strictly increasing row order: at most one per row. */
  lemma {:induction false} LinksInRowOrder(rows: seq<Row>, query: string, matcher: Matcher)
    ensures forall j :: 0 <= j < |LinksOf(rows, query, matcher)| ==>
              LinksOf(rows, query, matcher)[j].range.start.line < |rows|
    ensures forall i, j :: 0 <= i < j < |LinksOf(rows, query, matcher)| ==>
              LinksOf(rows, query, matcher)[i].range.start.line < LinksOf(rows, query, matcher)[j].range.start.line
  {
    if rows != [] {
      var n := |rows| - 1;
      LinksInRowOrder(rows[..n], query, matcher);
      var before := LinksOf(rows[..n], query, matcher);
      var all := LinksOf(rows, query, matcher);
      assert all == before + RowLinks(rows[n], n, query, matcher);
    }
  }

  /** Some link of `links` is on row `r`. */
  ghost predicate HasLinkOnRow(links: seq<Link>, r: nat)
  {
    exists j :: 0 <= j < |links| && links[j].range.start.line == r
  }

  /** Every non-separator row whose text the query matches has a link. */
  lemma {:induction false} LinksComplete(rows: seq<Row>, query: string, matcher: Matcher)
    ensures forall r :: 0 <= r < |rows| && rows[r].EntryRow? && rows[r].entry.Line?
                        && matcher(query, rows[r].entry.result).Some? ==>
              HasLinkOnRow(LinksOf(rows, query, matcher), r)
  {
    if rows != [] {
      var n := |rows| - 1;
      var prefix := rows[..n];
      LinksComplete(prefix, query, matcher);
      var before := LinksOf(prefix, query, matcher);
      var all := LinksOf(rows, query, matcher);
      assert all == before + RowLinks(rows[n], n, query, matcher);
      forall r | 0 <= r < |rows| && rows[r].EntryRow? && rows[r].entry.Line?
                 && matcher(query, rows[r].entry.result).Some?
        ensures HasLinkOnRow(all, r)
      {
        if r < n {
          assert rows[r] == prefix[r];
          assert HasLinkOnRow(before, r);
          var j :| 0 <= j < |before| && before[j].range.start.line == r;
          assert all[j] == before[j];
        } else {
          assert all[|before|] == RowLinks(rows[n], n, query, matcher)[0];
        }
      }
    }
  }
}
