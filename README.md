# Searchy results document, in Dafny

A model of the results formatter of the *sublime-search-vscode* extension:
the part of `SearchyProvider` (provider.ts) that turns the text ripgrep
printed for a search into the read-only results document and the clickable
links of that document, plus the view-name sanitiser `fileName`
(extension.ts).

The pipeline, as the source runs it and as the model states it:

1. the output is split at `'\n'` and empty pieces are dropped (`Provider.OutputLines`);
2. each line is classified, in order, as a match `file:line:column:text`,
   a separator `--`, a context line `file-line-text`, or ignored
   (`Classifier.Classify`, with the two regular expressions modelled
   exactly, lazy file group and JavaScript line terminators included);
3. entries are grouped by file in arrival order; a separator joins the
   group of the last match or context entry (`Aggregation.GroupByFile`);
4. one trailing separator per file is removed (`Aggregation.RemoveTrailingSeparators`);
5. the files are rendered in sorted order under a count header, while a
   running row counter numbers the rows and `createDocumentLink` records
   one link per entry whose text the query matches
   (`Provider.SearchyProvider.RenderFiles`, `RenderFile`, `RenderEntry`,
   `CreateDocumentLink`).

The rendered document is described twice: as the string the source builds
(`Rendering.Content`) and as a list of rows, each of which remembers what
it shows (`Rendering.Layout`). `Rendering.RenderedRows` proves that,
for a header without newlines, splitting the string at newlines gives
exactly those rows; `Rendering.RenderedRowsAnyHeader` states the split for
any header. The links are
then stated against row indices. The main results are these:

- for a query without newlines, a link sits on the row whose index, in
  the document split at newlines, is that of the entry it was made for
  (`Provider.LinksShowTheirResults`);
- for a query holding `n` newlines, the header takes `n + 1` lines and
  every link sits `n` rows above the line that shows its entry
  (`Provider.LinksShiftedByQueryNewlines`);
- a link starts at the rendered position of ripgrep's 1-based column
  (`Provider.LinkColumns`);
- the links of a document are reset on every render
  (`Provider.SearchyProvider.RenderTwice`).

Files and modules:

| file | module | models |
|---|---|---|
| wrappers.dfy | Wrappers | `Option` |
| text.dfy | Text | `split('\n')`, `join`, the empty-piece filter, decimal digits, `${n}`, the default string order of `sort()` |
| classifier.dfy | Classifier | the regular expressions of provider.ts:69 and :81, `formatLine`, `formatContextLine` |
| aggregation.dfy | Aggregation | the `forEach` grouping and `removeTrailingSeperators` |
| rendering.dfy | Rendering | the rendered string, its rows, and the links `createDocumentLink` builds |
| provider.dfy | Provider | `parseSearchQuery`, the class `SearchyProvider` with its `links` table |
| extension.dfy | Extension | `fileName` |

Abstractions:

- Running ripgrep is replaced by a parameter `run: RunOutcome`, which says
  whether the command threw (with the error's text) or returned its output.
- The query's regular expression test on a result (provider.ts:147) is a
  parameter `matcher: (query, text) -> Option<nat>` giving the length of
  the first match.
- vscode's `Range`, `Uri` and `DocumentLink` are plain records. A
  JavaScript number is `Num = Int(n) | NaN`, so `parseInt(undefined)` and
  `NaN + n` are modelled.
- The `links` dictionary is a `map<string, seq<Link>>` field. `links[uri]`
  of a URI never rendered is `undefined` in the source; it is `None` in
  `ProvideDocumentLinks`.

Where the code departs from the evident intent, the model follows the code:

- `parseSearchQuery` uses capture group 0, the whole match, as the path
  and group 1, the text before the first colon, as the query. Groups 1 and
  2 were evidently meant. The model computes what the code computes; see
  `Provider.ParseSearchQueryCases` and `Provider.ParseSearchQueryExample`.
- Context lines get links too. Their column is `undefined`, so the link
  starts at `NaN` (`Rendering.LinkFor`, `Provider.LinkColumns`).
- Only one trailing separator per file is removed. Two `--` lines in a row
  at the end of a group leave one behind (`Aggregation.DoubleSeparatorRemains`).
- The row counter starts at 1 after the header (provider.ts:111): the
  header is counted as one row. The query is copied into the header, and a
  query holding newlines makes the header several lines long. Each such
  newline moves every line of the document one further down, while the
  link rows stay as counted, so every link then sits above the line of
  its entry (`Provider.RenderedRowsShifted`, `Provider.LinksShiftedByQueryNewlines`).
- The whole output is split once; there is no chunked reading to model.

## Model

| member | source | states |
|---|---|---|
| Text.Split | provider.ts:53 | `split('\n')` yields at least one piece and no piece holds a newline |
| Text.JoinSplit | provider.ts:53 | joining the pieces of a split with `'\n'` gives back the split string: no character is lost |
| Text.SplitJoin | provider.ts:123-132 | splitting the `'\n'`-join of newline-free pieces gives back the pieces |
| Text.SplitAppend | provider.ts:123-132 | splitting `a + "\n" + b` is the split of `a` followed by the split of `b` |
| Text.NonEmptyMembers | provider.ts:54-56 | a string is in the filtered list exactly when it is a non-empty piece, and the filter never lengthens the list |
| Text.NonEmptyAppend | provider.ts:54-56 | filtering a concatenation is filtering each part and concatenating: order and repetitions are kept |
| Text.NonEmptySingle | provider.ts:54-56 | a single piece is kept exactly when it is non-empty |
| Text.NonEmptyCount | provider.ts:54-56 | the filter drops exactly the empty pieces: its length is the number of pieces less the number of empty ones |
| Text.SplitLength | provider.ts:53 | `split('\n')` yields one piece more than the string has newlines |
| Text.NewlinesAppend | provider.ts:53 | the newlines of a concatenation are those of each part |
| Text.NewlinesZero | provider.ts:53 | a string has no newline exactly when its newline count is zero |
| Text.IndexOf | provider.ts:191 | the index of the first occurrence of a character, or the length when there is none; no earlier character is it |
| Text.NatToString | provider.ts:129 | the decimal rendering of a count is a non-empty string of digits with no leading zero: it starts with `0` exactly when the count is 0 |
| Text.NatToStringRoundTrip | provider.ts:129 | the decimal value of `${n}` is `n` |
| Text.NatToStringNoNewline | provider.ts:129 | a rendered count holds no newline |
| Text.LexLessIrreflexive | provider.ts:110 | the string order of `sort()` is irreflexive |
| Text.LexLessTransitive | provider.ts:110 | the string order of `sort()` is transitive |
| Text.LexLessTotal | provider.ts:110 | any two distinct strings are ordered one way or the other |
| Text.LeastExists | provider.ts:110 | a non-empty set of keys has a least element |
| Text.LeastUnique | provider.ts:110 | the least element is unique |
| Text.SortedKeys | provider.ts:110 | `Object.keys(...).sort()` lists each key exactly once, has as many elements as there are keys, and is strictly ascending |
| Classifier.DigitRun | provider.ts:69 | the run of digits from a position is maximal: every character in it is a digit and the next one is not |
| Classifier.DigitRunIs | provider.ts:69 | any digit run closed by a non-digit or by the end is the run `DigitRun` finds |
| Classifier.DigitField | provider.ts:69 | a found field `d(\d+)d` lies between two delimiters and holds only digits |
| Classifier.DigitFieldAt | provider.ts:69 | digits between two delimiters are the field found at the first delimiter |
| Classifier.FirstSplit | provider.ts:69 | the lazy `(.*?)`: the position found admits the numeric fields and no earlier position does |
| Classifier.SegmentStart | provider.ts:69 | the unanchored match starts after the last line terminator before the split, with none in between |
| Classifier.SegmentEnd | provider.ts:69 | the greedy `(.*)` stops at the next line terminator or the end, with none in between |
| Classifier.ParseMatch | provider.ts:69-72 | the entry `formatLine` builds from a found match has a column, and its line and column are strings of digits; on a newline-free line its fields hold no newline |
| Classifier.ParseContext | provider.ts:81-85 | the entry `formatContextLine` builds from a found match has no column and its line is a string of digits; on a newline-free line its fields hold no newline |
| Classifier.ClassifyClean | provider.ts:69-86 | a newline-free line classified as match or context yields a line entry with newline-free fields and digit-only numbers |
| Classifier.MatchSplitFields | provider.ts:69 | a decomposition `f:l:c:t` puts the fields at the colons after `f`, `l` and `c` |
| Classifier.FieldsMatchSplit | provider.ts:69 | fields found at a position give a decomposition `f:l:c:t` |
| Classifier.ParseMatchAt | provider.ts:69-72 | on a line that is one segment, the entry built is the file before the split, then the line, the column and the rest |
| Classifier.MatchFoundIsShortest | provider.ts:69 | no decomposition `f:l:c:t` has a shorter file than the one found, and one as short is the one found |
| Classifier.MatchFoundIsSplit | provider.ts:69 | the entry found is a decomposition `file:line:column:text` of the line |
| Classifier.MatchRegexSemantics | provider.ts:69 | on a line without line terminators, the regex finds nothing exactly when no decomposition `f:l:c:t` with digit fields exists, and otherwise finds the decomposition with the shortest file |
| Classifier.ContextSplitFields | provider.ts:81 | a decomposition `f-l-t` puts the field at the dashes after `f` and `l` |
| Classifier.FieldsContextSplit | provider.ts:81 | a field found at a position gives a decomposition `f-l-t` |
| Classifier.ParseContextAt | provider.ts:81-85 | on a line that is one segment, the context entry built is the file before the split, the line and the rest, with no column |
| Classifier.ContextFoundIsShortest | provider.ts:81 | no decomposition `f-l-t` has a shorter file than the one found, and one as short is the one found |
| Classifier.ContextFoundIsSplit | provider.ts:81 | the context entry found is a decomposition `file-line-text` of the line |
| Classifier.ContextRegexSemantics | provider.ts:81 | the same as `MatchRegexSemantics` for `(.*?)-(\d+)-(.*)` |
| Classifier.ClassifyPrecedence | provider.ts:69-89 | a line of the match shape is a match even when it has the context shape; otherwise exactly `--` is a separator; otherwise a line of the context shape is a context line without a column; anything else is ignored (each case as an if-and-only-if) |
| Aggregation.GroupByFile | provider.ts:57-96 | the `forEach` loop with its `lastFormattedLine` computes the grouping `Aggregate` of the lines |
| Aggregation.AggregateWellFormed | provider.ts:60-96 | on newline-free lines every group is non-empty, starts with a line entry and holds only well-parsed entries of its own file; the last formatted line is a line entry of a known file |
| Aggregation.LastLine | provider.ts:88-94 | the last formatted line is never a separator |
| Aggregation.OfFileAppend | provider.ts:60-66 | the entries of a file in a concatenation are those of each part, in order |
| Aggregation.AddKeepsPartition | provider.ts:60-66 | `addFormattedLine` keeps every group equal to the entries of its file in arrival order |
| Aggregation.GroupingIsPartition | provider.ts:60-96 | the groups hold exactly the files of the entry stream, each group is that file's entries in arrival order, and `lastFormattedLine` is the stream's last non-separator entry |
| Aggregation.DashesIsSeparator | provider.ts:69-73 | `--` is classified as a separator |
| Aggregation.StreamAppendDashes | provider.ts:73-79 | one `--` line adds one separator for the file of the last entry, none before any entry, and does not change the last entry |
| Aggregation.SeparatorsAttachToLastEntry | provider.ts:73-94 | a run of `n` `--` lines adds `n` separators, all for the file of the last match or context entry before them, or none before any entry, and leaves the last entry unchanged |
| Aggregation.RemoveTrailingSeparators | provider.ts:98-106 | the `for ... in` loop, in whatever order it visits the files, removes the final separator of every group that ends with one and nothing else |
| Aggregation.TrimProperties | provider.ts:98-108 | the files are kept; a group loses its last entry exactly when that entry is a separator, and otherwise is unchanged; groups opened by a line entry stay non-empty and keep their first entry |
| Aggregation.Results | provider.ts:57-108 | after grouping and trimming each group is non-empty and holds only newline-free, well-parsed entries of its own file |
| Aggregation.ExampleLineIsMatch | provider.ts:69-72 | `a:1:1:x` is a match of file `a`, line `1`, column `1`, text `x` |
| Aggregation.ExampleAggregate | provider.ts:68-96 | a match followed by two `--` lines gives the group match, separator, separator |
| Aggregation.DoubleSeparatorRemains | provider.ts:98-108 | after trimming, that group still ends with a separator: only one is removed |
| Rendering.LinkFor | provider.ts:139-161 | no link when the query does not match the result's text; otherwise one link on row `lineNumber` from `preamble + col` for the match's length, opening the entry's file at its line; its start is `NaN` for a context line |
| Rendering.LinkColumnIsRenderedColumn | provider.ts:145-157 | a match entry's link starts where the 1-based column puts the match inside `  {line}: {text}`: from there on the row is the text from that column on |
| Rendering.FilesRowsSnoc | provider.ts:113-128 | rendering one more file appends its rows |
| Rendering.FilesRowsEntries | provider.ts:113-128 | every entry row of the rendered files shows an entry of one of their groups |
| Rendering.LayoutEntryInGroup | provider.ts:113-128 | every entry row of the document shows an entry of one of the groups |
| Rendering.RowTextsAppend | provider.ts:130-132 | the texts of concatenated rows are the concatenated texts |
| Rendering.FileBlockRows | provider.ts:125-127 | splitting a file's block gives a blank row, `{file}:`, then one row per entry |
| Rendering.BlockSplit | provider.ts:123-127 | the pieces of a file's block are an empty piece, the file's name with a colon, then one piece per entry |
| Rendering.EntryTextsSplit | provider.ts:123 | the joined entry rows split back into the entry rows |
| Rendering.FileBlocksRows | provider.ts:113-128 | splitting the joined blocks of several files gives their rows in order |
| Rendering.RenderedRows | provider.ts:110-132 | for a header without newlines, `content.split('\n')` is exactly the rows: the header at row 0, then per file a blank row, the file's name and one row per entry |
| Rendering.LinksOfEntryRows | provider.ts:115-124 | rendering a group after some rows appends the group's links, numbered from the first row after them |
| Rendering.LinksOnEntryRows | provider.ts:116-120 | every link sits on an entry row of a line entry and is the link `createDocumentLink` makes for that entry on that row |
| Rendering.LinksShowEntries | provider.ts:116-160 | every link's row shows its entry as `  {line}: {text}`, the query matches that text, the link opens the entry's file at its line, and its start is the entry's rendered column (`NaN` for a context line) |
| Rendering.LinksInRowOrder | provider.ts:113-124 | the links lie on rows of the document, in strictly increasing row order: at most one per row |
| Rendering.LinksComplete | provider.ts:116-121 | every row of a line entry whose text the query matches has a link |
| Provider.ParseSearchQueryCases | provider.ts:190-201 | the path is empty exactly when `cmd` has no colon or starts with one, and then the query is `cmd`; otherwise the query is the non-empty colon-free text before the first colon, followed by `:` it is a prefix of the path, the path is a prefix of `cmd`, and is all of `cmd` when `cmd` has no line terminator |
| Provider.ParseSearchQueryExample | provider.ts:190-201 | `src: foo` gives the path `src: foo` and the query `src` |
| Provider.OutputLines | provider.ts:53-56 | every line processed is non-empty and holds no newline, and a string is one of them exactly when it is a non-empty piece of the output split at `'\n'` |
| Provider.OutputLinesClean | provider.ts:53-56 | the filtered pieces are non-empty and hold no newline, and a string is one of them exactly when it is a non-empty piece of the split |
| Provider.OutputLinesAppend | provider.ts:53-56 | the lines of `a + "\n" + b` are the lines of `a` followed by the lines of `b` |
| Provider.OutputLinesSingle | provider.ts:53-56 | a newline-free output is one line, or none when it is empty |
| Provider.OutputLinesCount | provider.ts:53-56 | the number of lines, which the header shows, is the number of pieces of the split less the number of empty pieces |
| Provider.CollectResults | provider.ts:53-108 | the lines and the trimmed groups are those of the output |
| Provider.FileBlocksSnoc | provider.ts:113-128 | rendering one more file appends its block |
| Provider.LayoutSnoc | provider.ts:113-128 | rendering one more file appends its rows to the document's rows |
| Provider.LayoutLinksSnoc | provider.ts:113-128 | rendering one more file adds its rows and appends its group's links, numbered after the rows before it |
| Provider.FilesLinksOfLayout | provider.ts:110-128 | the running row counter after the files equals the number of rows of the document, and the links collected file by file are the links of the document's rows |
| Provider.SearchyProvider.constructor | provider.ts:18-19 | a new provider has no links |
| Provider.SearchyProvider.OnDidCloseTextDocument | provider.ts:20-22 | closing a document sets its links to the empty list and changes no other document's links |
| Provider.SearchyProvider.ProvideDocumentLinks | provider.ts:135-137 | the links of a rendered document, and nothing for a document never rendered |
| Provider.SearchyProvider.CreateDocumentLink | provider.ts:139-161 | appends to the document's links exactly the links `LinkFor` states (none when the query does not match), and changes no other document's links |
| Provider.SearchyProvider.RenderEntry | provider.ts:116-123 | returns `  ..` for a separator and `  {line}: {text}` otherwise, and appends that entry's links on row `lineNumber` |
| Provider.SearchyProvider.RenderFile | provider.ts:113-128 | returns the file's block and the row after its last entry, and appends the group's links numbered from two rows after `lineNumber` |
| Provider.SearchyProvider.RenderFiles | provider.ts:110-128 | returns the blocks of the files in order and leaves, for the document, exactly the links of the document's rows; no other document's links change |
| Provider.SearchyProvider.ProvideTextDocumentContent | provider.ts:35-132 | returns the error's text when the search threw, `There was an error during your search!` for empty output, and otherwise the rendered search; the document's links become exactly those of the rendering, and no other document's links change |
| Provider.SearchyProvider.RenderTwice | provider.ts:35-37 | rendering the same search twice gives the same document both times and leaves the links of a single render, with nothing accumulated |
| Provider.HeaderNoNewline | provider.ts:129 | the header is one row when the query holds no newline |
| Provider.SearchRenderable | provider.ts:98-110 | every sorted file is a key of the groups, holds no newline, has a non-empty group of newline-free entries |
| Provider.GroupMember | provider.ts:57-108 | an entry of some group is in the group of its own file and is well parsed |
| Provider.RowShowsResult | provider.ts:110-128 | an entry row of the document shows a well-parsed entry of the results, filed under its own file |
| Provider.RowsShowResults | provider.ts:110-128 | every entry row of the document shows a well-parsed entry of the results, filed under its own file |
| Provider.RenderedDocument | provider.ts:110-132 | for a query without newlines, the document split at newlines is its rows; row 0 is the header, whose count is the length of `Provider.OutputLines` of the output |
| Provider.HeaderNewlines | provider.ts:129 | the header holds as many newlines as the query |
| Provider.RenderedRowsShifted | provider.ts:110-132 | for any query, the document split at newlines is the header's lines followed by the other rows, so row `r` is line `r + n` for a query holding `n` newlines |
| Provider.LinksShiftedByQueryNewlines | provider.ts:111-124 | for any query, with `n` its newlines, each link's row `r` shows a result of the search under its file, line `r + n` of the document shows that result as `  {line}: {text}`, the query matches its text and the link opens its file at its line |
| Rendering.RenderedRowsAnyHeader | provider.ts:110-132 | for any header, the rendered string split at newlines is the header's pieces followed by the texts of the rows after the header |
| Rendering.RenderedRowsBelowHeader | provider.ts:110-132 | with `n` newlines in the header, the rendered string has `n` more lines than rows, starts with the header's pieces, and shows row `r` on line `r + n` |
| Rendering.LinksBelowHeader | provider.ts:111-124 | with `n` newlines in the header, each link's row `r` is an entry row that line `r + n` shows as `  {line}: {text}`; the query matches the text and the link opens the entry's file at its line |
| Provider.LinksShowTheirResults | provider.ts:113-160 | for a query without newlines, every link's row index is the index, in the document split at newlines, of the line showing its result as `  {line}: {text}`; that result is in the results under its file, the query matches its text and the link opens its file at its line |
| Provider.LinkColumnAt | provider.ts:145-157 | a link shown on its entry's row starts at that entry's rendered column |
| Provider.LinkColumns | provider.ts:145-157 | for a query without newlines, every link of a match entry whose column is within its text starts at the rendered position of that 1-based column, and the rendered line from there on is the text from that column on; a context line's link starts at `NaN` |
| Extension.Sanitize | extension.ts:56 | `replace(/[^a-z0-9]/gi, '_')` keeps the length and maps each character to itself when it is an ASCII letter or digit, else to `_` |
| Extension.FileName | extension.ts:55-57 | the name is as long as `cmd` up to ten characters, its characters are `cmd`'s sanitised characters, and each is an ASCII letter, digit or `_` |
| Extension.FileNameIdempotent | extension.ts:56 | a name is its own name |
| Extension.FileNameCollides | extension.ts:56 | two commands get the same name exactly when their lengths agree up to ten and their first characters agree after sanitising |
| Extension.FileNameCollisionExample | extension.ts:56 | `a b` and `a-b` both get the name `a_b` |

## Left out

- Running ripgrep (`runCommandSync`, provider.ts:216-218) is a shell call through `child_process.execSync`. The model takes its outcome as the parameter `run`. `${err}` is modelled as the error's text.
- The query's regular expression (provider.ts:147) is user input run by the JavaScript engine. It is the parameter `matcher`. The exception an invalid query throws is not modelled.
- `querystring.parse`, `path.join`, `vscode.workspace.rootPath` and `showInformationMessage` are editor and library calls. `cmd` is a parameter, the path is kept before it is joined to the root, and the message is dropped. The exception `path.join` throws when no folder is open (`rootPath` undefined) is not modelled. A missing `cmd` (`undefined`) is not modelled.
- `_subscriptions`, `dispose`, `scheme` and `onDidChange` are editor registration. The close handler is `OnDidCloseTextDocument`, which takes the closed document's URI as a parameter.
- `openLink` (provider.ts:182-188) is not modelled: nothing calls it.
- `activate`, `deactivate` and `showSearchyPopup` in extension.ts, and commands.ts, are not part of this model: they register editor commands and prompts.
- Strings are sequences of characters, not UTF-16 code units. `Text.LexLess` compares characters, which agrees with JavaScript's code-unit order on the Basic Multilingual Plane only. `Preamble` and column positions count characters, not code units or ripgrep's bytes.
- `Rendering.ParseColumn`: the digits ripgrep prints are read exactly; the loss of precision of numbers above 2^53 is not modelled.
- vscode's treatment of a `NaN` position is not modelled. The link is recorded with `NaN` modelled as such.
- `resultsByFile` is a Dafny map, so keys that collide with `Object.prototype` properties (such as `__proto__`) behave like any other file name.
- Rendering.RenderedRows: stated for a header without newlines. For any header, `Rendering.RenderedRowsAnyHeader` and `Rendering.RenderedRowsBelowHeader` state the split.
- Provider.RenderedDocument, Provider.LinksShowTheirResults, Provider.LinkColumns: stated for queries without newlines, where row and line numbers agree. With `n` newlines in the query the header spans `n + 1` lines and every link sits `n` rows above its line, as `Provider.RenderedRowsShifted` and `Provider.LinksShiftedByQueryNewlines` state.
- `Provider.LinkColumns`: the column is stated only for columns within the text (`1 <= col <= |text| + 1`). ripgrep prints no other, but the model does not know that.
- `Classifier.MatchRegexSemantics`, `Classifier.ContextRegexSemantics`, `Classifier.ClassifyPrecedence`: the decomposition reading is stated for lines without line terminators. Lines are split at `'\n'` only, so a line may hold `'\r'`, `U+2028` or `U+2029`. For those lines `ParseMatch` and `ParseContext` still model the engine: the match starts after the last terminator before the split point and the text stops at the next one.
- `Provider.ParseSearchQueryCases`: that the path is all of `cmd` is stated for commands without line terminators. For the others the path stops at the first line terminator after the colon, as `SegmentEnd` states.
