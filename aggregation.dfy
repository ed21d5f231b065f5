/**
 * Grouping the classified lines by file (the `forEach` at
 * provider.ts:60-96) and dropping one trailing separator per file
 * (`removeTrailingSeperators`, provider.ts:98-108).
 */
module Aggregation {
  import opened Wrappers
  import opened Text
  import opened Classifier

  /** The state the `forEach` callback carries: `resultsByFile` and `lastFormattedLine`. */
  datatype AggState = AggState(resultsByFile: map<string, seq<Entry>>, lastFormattedLine: Option<Entry>)

  /** `addFormattedLine`: append `e` to the group of its file, creating the group when absent. */
  function AddFormattedLine(groups: map<string, seq<Entry>>, e: Entry): map<string, seq<Entry>>
  {
    groups[e.file := (if e.file in groups then groups[e.file] else []) + [e]]
  }

  /** One call of the `forEach` callback on the line `s`. */
  function Step(st: AggState, s: string): AggState
  {
    match Classify(s)
    case MatchLine(e) => AggState(AddFormattedLine(st.resultsByFile, e), Some(e))
    case ContextLine(e) => AggState(AddFormattedLine(st.resultsByFile, e), Some(e))
    case SeparatorLine =>
      (match st.lastFormattedLine
       case None => st
       case Some(last) => AggState(AddFormattedLine(st.resultsByFile, Separator(last.file)), st.lastFormattedLine))
    case Unrecognized => st
  }

  /** The state after the callback has run on every line of `ls`, in order. */
  function Aggregate(ls: seq<string>): AggState
  {
    if ls == [] then AggState(map[], None)
    else Step(Aggregate(ls[..|ls| - 1]), ls[|ls| - 1])
  }

  /** The `forEach` loop of provider.ts:68-96, written as the source writes it. */
  method GroupByFile(resultsArray: seq<string>) returns (resultsByFile: map<string, seq<Entry>>)
    ensures resultsByFile == Aggregate(resultsArray).resultsByFile
  {
    resultsByFile := map[];
    var lastFormattedLine: Option<Entry> := None;
    var i := 0;
    while i < |resultsArray|
      invariant 0 <= i <= |resultsArray|
      invariant AggState(resultsByFile, lastFormattedLine) == Aggregate(resultsArray[..i])
    {
      var searchResult := resultsArray[i];
      ghost var before := AggState(resultsByFile, lastFormattedLine);
      assert resultsArray[..i + 1][..i] == resultsArray[..i];
      assert Aggregate(resultsArray[..i + 1]) == Step(before, searchResult);
      var formattedLine: Option<Entry> := None;
      var splitLine := ParseMatch(searchResult);
      if splitLine.Some? {
        assert Classify(searchResult) == MatchLine(splitLine.value);
        formattedLine := splitLine;
      } else if searchResult == "--" {
        assert Classify(searchResult) == SeparatorLine;
        if lastFormattedLine.Some? {
          resultsByFile := AddFormattedLine(resultsByFile, Separator(lastFormattedLine.value.file));
        }
      } else {
        var contextLine := ParseContext(searchResult);
        if contextLine.Some? {
          assert Classify(searchResult) == ContextLine(contextLine.value);
          formattedLine := contextLine;
        } else {
          assert Classify(searchResult) == Unrecognized;
        }
      }
      if formattedLine.Some? {
        resultsByFile := AddFormattedLine(resultsByFile, formattedLine.value);
        lastFormattedLine := formattedLine;
      }
      i := i + 1;
    }
    assert resultsArray[..i] == resultsArray;
  }

  // ---------------------------------------------------------------------------
  // invariants of the grouping

  /** A group as the loop builds it: non-empty, opened by a line entry, every entry of file `f`. */
  predicate GroupOK(f: string, g: seq<Entry>)
  {
    |g| > 0 && g[0].Line? && forall k :: 0 <= k < |g| ==> g[k].file == f && Clean(g[k]) && WellParsed(g[k])
  }

  predicate WellFormed(st: AggState)
  {
    && (forall f :: f in st.resultsByFile ==> GroupOK(f, st.resultsByFile[f]))
    && (st.lastFormattedLine.Some? ==>
          st.lastFormattedLine.value.Line? && st.lastFormattedLine.value.file in st.resultsByFile)
  }

  /**
   * On newline-free lines (as `split('\n')` yields) every group is
   * non-empty, starts with a line entry and holds only entries of its own
   * file, and the last formatted line is a line entry of a known file.
   */
  lemma {:induction false} AggregateWellFormed(ls: seq<string>)
    requires forall k :: 0 <= k < |ls| ==> NoNewline(ls[k])
    ensures WellFormed(Aggregate(ls))
  {
    if ls != [] {
      var p := ls[..|ls| - 1];
      AggregateWellFormed(p);
      ClassifyClean(ls[|ls| - 1]);
      ghost var c := Classify(ls[|ls| - 1]);
      assert c.MatchLine? || c.ContextLine? ==> c.entry.Line?;
      var st := Aggregate(p);
      var st' := Aggregate(ls);
      forall f | f in st'.resultsByFile
        ensures GroupOK(f, st'.resultsByFile[f])
      {
        if f in st.resultsByFile {
          var g := st.resultsByFile[f];
          var g' := st'.resultsByFile[f];
          assert g' == g || (|g'| == |g| + 1 && g'[..|g|] == g);
          assert g'[0] == g[0];
        }
      }
    }
  }

  // ---------------------------------------------------------------------------
  // the grouping is a partition of the entry stream

  /** The last entry of `es` that is not a separator. */
  function LastLine(es: seq<Entry>): (r: Option<Entry>)
    ensures r.Some? ==> r.value.Line?
  {
    if es == [] then None
    else if es[|es| - 1].Line? then Some(es[|es| - 1])
    else LastLine(es[..|es| - 1])
  }

  /** The entries one line contributes, given the entries before it. */
  function Emitted(prev: seq<Entry>, s: string): seq<Entry>
  {
    match Classify(s)
    case MatchLine(e) => [e]
    case ContextLine(e) => [e]
    case SeparatorLine =>
      (match LastLine(prev)
       case None => []
       case Some(e) => [Separator(e.file)])
    case Unrecognized => []
  }

  /** All entries of the output in arrival order, before they are grouped. */
  function Stream(ls: seq<string>): seq<Entry>
  {
    if ls == [] then []
    else
      var prev := Stream(ls[..|ls| - 1]);
      prev + Emitted(prev, ls[|ls| - 1])
  }

  /** The entries of file `f`, in order. */
  function OfFile(es: seq<Entry>, f: string): seq<Entry>
  {
    if es == [] then []
    else OfFile(es[..|es| - 1], f) + (if es[|es| - 1].file == f then [es[|es| - 1]] else [])
  }

  lemma {:induction false} OfFileAppend(a: seq<Entry>, b: seq<Entry>, f: string)
    ensures OfFile(a + b, f) == OfFile(a, f) + OfFile(b, f)
    decreases |b|
  {
    if b == [] {
      assert a + b == a;
    } else {
      var b' := b[..|b| - 1];
      OfFileAppend(a, b', f);
      assert (a + b)[..|a + b| - 1] == a + b';
    }
  }

  lemma OfFileSingle(e: Entry, f: string)
    ensures OfFile([e], f) == if e.file == f then [e] else []
  {
    assert [e][..0] == [];
  }

  /** `groups` holds exactly the files of `es`, each with its entries of `es` in order. */
  ghost predicate Partitions(groups: map<string, seq<Entry>>, es: seq<Entry>)
  {
    && (forall f :: f in groups <==> OfFile(es, f) != [])
    && (forall f :: f in groups ==> groups[f] == OfFile(es, f))
  }

  lemma AddKeepsPartition(groups: map<string, seq<Entry>>, es: seq<Entry>, e: Entry)
    requires Partitions(groups, es)
    ensures Partitions(AddFormattedLine(groups, e), es + [e])
  {
    forall f
      ensures OfFile(es + [e], f) == OfFile(es, f) + (if e.file == f then [e] else [])
    {
      OfFileAppend(es, [e], f);
      OfFileSingle(e, f);
    }
  }

  lemma LastLineAppend(es: seq<Entry>, e: Entry)
    ensures LastLine(es + [e]) == if e.Line? then Some(e) else LastLine(es)
  {
    assert (es + [e])[..|es|] == es;
  }

  /**
   * `resultsByFile` holds exactly the files of the entry stream, each
   * group is the stream's entries of that file in arrival order, and
   * `lastFormattedLine` is the stream's last non-separator entry.
   */
  lemma {:induction false} GroupingIsPartition(ls: seq<string>)
    ensures Aggregate(ls).lastFormattedLine == LastLine(Stream(ls))
    ensures Partitions(Aggregate(ls).resultsByFile, Stream(ls))
  {
    if ls == [] {
      forall f ensures OfFile([], f) == [] { }
    } else {
      var p := ls[..|ls| - 1];
      var x := ls[|ls| - 1];
      GroupingIsPartition(p);
      var st := Aggregate(p);
      var prev := Stream(p);
      assert Stream(ls) == prev + Emitted(prev, x);
      assert Aggregate(ls) == Step(st, x);
      match Classify(x)
      case MatchLine(e) =>
        AddKeepsPartition(st.resultsByFile, prev, e);
        LastLineAppend(prev, e);
      case ContextLine(e) =>
        AddKeepsPartition(st.resultsByFile, prev, e);
        LastLineAppend(prev, e);
      case SeparatorLine =>
        if st.lastFormattedLine.Some? {
          var sep := Separator(st.lastFormattedLine.value.file);
          AddKeepsPartition(st.resultsByFile, prev, sep);
          LastLineAppend(prev, sep);
        } else {
          assert prev + [] == prev;
        }
      case Unrecognized =>
        assert prev + [] == prev;
    }
  }

  /** `n` separator lines. */
  function Dashes(n: nat): seq<string>
  {
    seq(n, _ => "--")
  }

  lemma DashesIsSeparator()
    ensures Classify("--") == SeparatorLine
  {
    assert !SplitsAt("--", 0, MatchShape);
    assert !SplitsAt("--", 1, MatchShape);
    assert FirstSplit("--", 0, MatchShape) == None;
  }

  /** The separators a run of `n` `--` lines contributes after an entry stream whose last line entry is `last`. */
  function Attached(last: Option<Entry>, n: nat): seq<Entry>
  {
    match last
    case None => []
    case Some(e) => seq(n, _ => Separator(e.file))
  }

  lemma DashesSnoc(n: nat)
    requires n > 0
    ensures Dashes(n) == Dashes(n - 1) + ["--"]
  {
  }

  /** One `--` line adds one separator for the file of the last line entry, if there is one. */
  lemma StreamAppendDashes(ls: seq<string>)
    ensures Stream(ls + ["--"]) == Stream(ls) + Attached(LastLine(Stream(ls)), 1)
    ensures LastLine(Stream(ls + ["--"])) == LastLine(Stream(ls))
  {
    var longer := ls + ["--"];
    var dashes := longer[|longer| - 1];
    assert longer[..|longer| - 1] == ls;
    DashesIsSeparator();
    assert Classify(dashes) == SeparatorLine;
    var prev := Stream(ls);
    assert Stream(longer) == prev + Emitted(prev, dashes);
    match LastLine(prev)
    case None =>
      assert prev + [] == prev;
    case Some(e) =>
      var sep := Separator(e.file);
      assert Attached(LastLine(prev), 1) == [sep];
      LastLineAppend(prev, sep);
  }

  /**
   * A run of `--` lines all attach to the file of the last match or
   * context entry before them (separators never become the last formatted
   * line); before any entry they are dropped.
   */
  lemma {:induction false} SeparatorsAttachToLastEntry(ls: seq<string>, n: nat)
    ensures Stream(ls + Dashes(n)) == Stream(ls) + Attached(LastLine(Stream(ls)), n)
    ensures LastLine(Stream(ls + Dashes(n))) == LastLine(Stream(ls))
  {
    var last := LastLine(Stream(ls));
    if n == 0 {
      assert ls + Dashes(0) == ls;
      assert Stream(ls) + Attached(last, 0) == Stream(ls);
    } else {
      SeparatorsAttachToLastEntry(ls, n - 1);
      var shorter := ls + Dashes(n - 1);
      var es, mid := Stream(ls), Stream(shorter);
      DashesStep(ls, n);
      StreamAppendDashes(shorter);
      assert Stream(ls + Dashes(n)) == mid + Attached(last, 1);
      AttachedStep(es, last, n);
    }
  }

  lemma DashesStep(ls: seq<string>, n: nat)
    requires n > 0
    ensures ls + Dashes(n) == (ls + Dashes(n - 1)) + ["--"]
  {
    DashesSnoc(n);
    ConcatAssoc(ls, Dashes(n - 1), ["--"]);
  }

  lemma AttachedStep(es: seq<Entry>, last: Option<Entry>, n: nat)
    requires n > 0
    ensures (es + Attached(last, n - 1)) + Attached(last, 1) == es + Attached(last, n)
  {
    assert Attached(last, n - 1) + Attached(last, 1) == Attached(last, n);
    ConcatAssoc(es, Attached(last, n - 1), Attached(last, 1));
  }

  // ---------------------------------------------------------------------------
  // removeTrailingSeperators

  /** One iteration of the loop body of provider.ts:100-104. */
  function RemoveTrailingSeparator(lines: seq<Entry>): seq<Entry>
    requires |lines| > 0
  {
    if lines[|lines| - 1].Separator? then lines[..|lines| - 1] else lines
  }

  /** Every group after `removeTrailingSeperators`. */
  function TrimAll(resultsByFile: map<string, seq<Entry>>): map<string, seq<Entry>>
    requires forall f :: f in resultsByFile ==> |resultsByFile[f]| > 0
  {
    map f | f in resultsByFile :: RemoveTrailingSeparator(resultsByFile[f])
  }

  /** The `for ... in` loop of `removeTrailingSeperators`, visiting the files in some order. */
  method RemoveTrailingSeparators(resultsByFile: map<string, seq<Entry>>)
    returns (trimmed: map<string, seq<Entry>>)
    requires forall f :: f in resultsByFile ==> |resultsByFile[f]| > 0
    ensures trimmed == TrimAll(resultsByFile)
  {
    trimmed := resultsByFile;
    var pending := resultsByFile.Keys;
    while pending != {}
      invariant pending <= resultsByFile.Keys == trimmed.Keys
      invariant forall f :: f in resultsByFile && f !in pending ==>
                  trimmed[f] == RemoveTrailingSeparator(resultsByFile[f])
      invariant forall f :: f in pending ==> trimmed[f] == resultsByFile[f]
      decreases pending
    {
      var file :| file in pending;
      var lines := trimmed[file];
      if lines[|lines| - 1].Separator? {
        lines := lines[..|lines| - 1];
        trimmed := trimmed[file := lines];
      }
      pending := pending - {file};
    }
  }

  /**
   * `removeTrailingSeperators` keeps the files, removes at most one entry
   * per file and only a final separator, leaves every other entry in place,
   * and leaves groups opened by a line entry non-empty.
   */
  lemma TrimProperties(resultsByFile: map<string, seq<Entry>>)
    requires forall f :: f in resultsByFile ==> |resultsByFile[f]| > 0 && resultsByFile[f][0].Line?
    ensures TrimAll(resultsByFile).Keys == resultsByFile.Keys
    ensures forall f :: f in resultsByFile ==>
              var g, t := resultsByFile[f], TrimAll(resultsByFile)[f];
              && |t| > 0 && t[0] == g[0]
              && (if g[|g| - 1].Separator? then t == g[..|g| - 1] else t == g)
  {
  }

  /** The groups of the whole output, after the trailing separators are removed. */
  function Results(lines: seq<string>): (r: map<string, seq<Entry>>)
    requires forall k :: 0 <= k < |lines| ==> NoNewline(lines[k])
    ensures forall f :: f in r ==> |r[f]| > 0 && forall k :: 0 <= k < |r[f]| ==>
              r[f][k].file == f && Clean(r[f][k]) && WellParsed(r[f][k])
  {
    AggregateWellFormed(lines);
    TrimAll(Aggregate(lines).resultsByFile)
  }

  lemma ExampleLineIsMatch()
    ensures Classify("a:1:1:x") == MatchLine(Line("a", "1", Some("1"), "x"))
  {
    var s := "a:1:1:x";
    ExampleSplit();
    assert MatchFields(s, 1) == Some((3, 5));
    assert SegmentStart(s, 1) == 0 && SegmentEnd(s, 6) == 7;
    ExampleSlices();
  }

  lemma ExampleSplit()
    ensures FirstSplit("a:1:1:x", 0, MatchShape) == Some(1) && MatchFields("a:1:1:x", 1) == Some((3, 5))
  {
    var s := "a:1:1:x";
    assert !SplitsAt(s, 0, MatchShape);
    assert DigitRun(s, 2) == 1 && DigitRun(s, 4) == 1;
    assert MatchFields(s, 1) == Some((3, 5));
  }

  lemma ExampleSlices()
    ensures var s := "a:1:1:x";
            s[0..1] == "a" && s[2..3] == "1" && s[4..5] == "1" && s[6..7] == "x"
  {
  }

  lemma ExampleFirstLine()
    ensures var line := Line("a", "1", Some("1"), "x");
            Aggregate(["a:1:1:x"]) == AggState(map["a" := [line]], Some(line))
  {
    var line := Line("a", "1", Some("1"), "x");
    ExampleLineIsMatch();
    var empty: map<string, seq<Entry>> := map[];
    assert [] + [line] == [line];
    assert AddFormattedLine(empty, line) == map["a" := [line]];
    assert ["a:1:1:x"][..0] == [];
  }

  lemma ExampleSeparator(ls: seq<string>, g: seq<Entry>, line: Entry)
    requires line.Line? && Aggregate(ls) == AggState(map[line.file := g], Some(line))
    ensures Aggregate(ls + ["--"]) == AggState(map[line.file := g + [Separator(line.file)]], Some(line))
  {
    DashesIsSeparator();
    assert (ls + ["--"])[..|ls|] == ls;
  }

  lemma ExampleAggregate()
    ensures var line, sep := Line("a", "1", Some("1"), "x"), Separator("a");
            Aggregate(["a:1:1:x", "--", "--"]) == AggState(map["a" := [line, sep, sep]], Some(line))
  {
    var line := Line("a", "1", Some("1"), "x");
    ExampleFirstLine();
    ExampleSeparator(["a:1:1:x"], [line], line);
    SnocTwice("a:1:1:x", "--", "--");
    SnocTwice(line, Separator("a"), Separator("a"));
    ExampleSeparator(["a:1:1:x", "--"], [line, Separator("a")], line);
  }

  lemma SnocTwice<T>(a: T, b: T, c: T)
    ensures [a] + [b] == [a, b] && [a, b] + [c] == [a, b, c]
  {
  }

  /** Only one separator is removed: two `--` in a row leave one at the end of a group. */
  lemma DoubleSeparatorRemains()
    ensures var r := Results(["a:1:1:x", "--", "--"]);
            "a" in r && r["a"] == [Line("a", "1", Some("1"), "x"), Separator("a")]
  {
    var line := Line("a", "1", Some("1"), "x");
    var sep := Separator("a");
    ExampleAggregate();
    assert [line, sep, sep][..2] == [line, sep];
  }
}
