/**
 * The line classification of `provideTextDocumentContent`
 * (provider.ts:69-86) and the records built by `formatLine` and
 * `formatContextLine` (provider.ts:164-180).
 *
 * The two regular expressions, `/(.*?):(\d+):(\d+):(.*)/` and
 * `/(.*?)-(\d+)-(.*)/`, are unanchored and their file group is lazy.
 * They are modelled by the position `i` where the file group ends: the
 * least `i` after which the line continues with the numeric fields. The
 * file group starts after the last line terminator before `i` (`.` does
 * not match one, and every earlier start of the search fails), and the
 * text group runs up to the next line terminator.
 */
module Classifier {
  import opened Wrappers
  import opened Text

  /** The object a line of results is turned into. `column` is `undefined` for a context line. */
  datatype Entry =
    | Line(file: string, line: string, column: Option<string>, result: string)
    | Separator(file: string)

  /** How one line of the search output is read. */
  datatype Classified =
    | MatchLine(entry: Entry)
    | SeparatorLine
    | ContextLine(entry: Entry)
    | Unrecognized

  /** The two line shapes that carry a file name. */
  datatype Shape = MatchShape | ContextShape

  /** Every text field of `e` fits on one rendered row. */
  predicate Clean(e: Entry)
  {
    NoNewline(e.file) && (e.Line? ==> NoNewline(e.line) && NoNewline(e.result))
  }

  /** The numeric fields of `e` are what `\d+` captures. */
  predicate WellParsed(e: Entry)
  {
    e.Line? ==> AllDigits(e.line) && (e.column.Some? ==> AllDigits(e.column.value))
  }

  // ---------------------------------------------------------------------------
  // the numeric fields

  /** The length of the maximal run of digits of `s` starting at `i` (what a greedy `\d*` takes). */
  function DigitRun(s: string, i: nat): (n: nat)
    requires i <= |s|
    ensures i + n <= |s|
    ensures forall k :: i <= k < i + n ==> IsDigit(s[k])
    ensures i + n == |s| || !IsDigit(s[i + n])
    decreases |s| - i
  {
    if i < |s| && IsDigit(s[i]) then 1 + DigitRun(s, i + 1) else 0
  }

  /** A digit run closed by a non-digit (or the end) is the maximal one. */
  lemma {:induction false} DigitRunIs(s: string, i: nat, n: nat)
    requires i + n <= |s|
    requires forall k :: i <= k < i + n ==> IsDigit(s[k])
    requires i + n == |s| || !IsDigit(s[i + n])
    ensures DigitRun(s, i) == n
    decreases n
  {
    if n > 0 {
      DigitRunIs(s, i + 1, n - 1);
    }
  }

  /**
   * `d(\d+)d` at position `i`: the position of the closing delimiter. The
   * digits are greedy, and since a digit is not a delimiter no shorter run
   * can be followed by one.
   */
  function DigitField(s: string, i: nat, d: char): (r: Option<nat>)
    requires !IsDigit(d)
    ensures r.Some? ==> i < r.value < |s| && s[i] == d && s[r.value] == d
                        && AllDigits(s[i + 1..r.value])
  {
    if i < |s| && s[i] == d then
      var n := DigitRun(s, i + 1);
      if n > 0 && i + 1 + n < |s| && s[i + 1 + n] == d then Some(i + 1 + n) else None
    else None
  }

  /** A digit string between two delimiters is the field `DigitField` finds. */
  lemma DigitFieldAt(s: string, a: nat, b: nat, d: char)
    requires !IsDigit(d) && a < b < |s| && s[a] == d && s[b] == d && AllDigits(s[a + 1..b])
    ensures DigitField(s, a, d) == Some(b)
  {
    forall x | a + 1 <= x < b
      ensures IsDigit(s[x])
    {
      assert s[x] == s[a + 1..b][x - (a + 1)];
    }
    DigitRunIs(s, a + 1, b - (a + 1));
  }

  /** The positions of the second and third colon of `:(\d+):(\d+):` starting at `i`. */
  function MatchFields(s: string, i: nat): Option<(nat, nat)>
  {
    match DigitField(s, i, ':')
    case None => None
    case Some(j) =>
      match DigitField(s, j, ':')
      case None => None
      case Some(k) => Some((j, k))
  }

  /** The file group can end at `i`. */
  predicate SplitsAt(s: string, i: nat, shape: Shape)
  {
    match shape
    case MatchShape => MatchFields(s, i).Some?
    case ContextShape => DigitField(s, i, '-').Some?
  }

  /** The least `j >= i` where the file group can end (the lazy `(.*?)`). */
  function FirstSplit(s: string, i: nat, shape: Shape): (r: Option<nat>)
    ensures r.Some? ==> i <= r.value < |s| && SplitsAt(s, r.value, shape)
    ensures forall j :: i <= j && (r.None? || j < r.value) ==> !SplitsAt(s, j, shape)
    decreases |s| - i
  {
    if i >= |s| then None
    else if SplitsAt(s, i, shape) then Some(i)
    else FirstSplit(s, i + 1, shape)
  }

  /** Where a match found at `i` starts: just after the last line terminator before `i`. */
  function SegmentStart(s: string, i: nat): (r: nat)
    requires i <= |s|
    ensures r <= i
    ensures forall k :: r <= k < i ==> !IsLineTerminator(s[k])
    ensures r == 0 || IsLineTerminator(s[r - 1])
  {
    if i == 0 then 0
    else if IsLineTerminator(s[i - 1]) then i
    else SegmentStart(s, i - 1)
  }

  /** Where a greedy `(.*)` from `i` stops: at the next line terminator or the end. */
  function SegmentEnd(s: string, i: nat): (r: nat)
    requires i <= |s|
    ensures i <= r <= |s|
    ensures forall k :: i <= k < r ==> !IsLineTerminator(s[k])
    ensures r == |s| || IsLineTerminator(s[r])
    decreases |s| - i
  {
    if i == |s| || IsLineTerminator(s[i]) then i
    else SegmentEnd(s, i + 1)
  }

  // ---------------------------------------------------------------------------
  // the two regular expressions and formatLine / formatContextLine

  /** `s.match(/(.*?):(\d+):(\d+):(.*)/)` followed by `formatLine`. */
  function ParseMatch(s: string): (r: Option<Entry>)
    ensures r.Some? ==> r.value.Line? && r.value.column.Some?
                        && AllDigits(r.value.line) && AllDigits(r.value.column.value)
    ensures r.Some? && NoNewline(s) ==> Clean(r.value)
  {
    match FirstSplit(s, 0, MatchShape)
    case None => None
    case Some(i) =>
      var (j, k) := MatchFields(s, i).value;
      Some(Line(s[SegmentStart(s, i)..i], s[i + 1..j], Some(s[j + 1..k]),
                s[k + 1..SegmentEnd(s, k + 1)]))
  }

  /** `s.match(/(.*?)-(\d+)-(.*)/)` followed by `formatContextLine`: the column is `undefined`. */
  function ParseContext(s: string): (r: Option<Entry>)
    ensures r.Some? ==> r.value.Line? && r.value.column.None? && AllDigits(r.value.line)
    ensures r.Some? && NoNewline(s) ==> Clean(r.value)
  {
    match FirstSplit(s, 0, ContextShape)
    case None => None
    case Some(i) =>
      var j := DigitField(s, i, '-').value;
      Some(Line(s[SegmentStart(s, i)..i], s[i + 1..j], None, s[j + 1..SegmentEnd(s, j + 1)]))
  }

  /** The body of the `forEach` callback up to `formattedLine` (provider.ts:69-86). */
  function Classify(s: string): Classified
  {
    match ParseMatch(s)
    case Some(e) => MatchLine(e)
    case None =>
      if s == "--" then SeparatorLine
      else
        match ParseContext(s)
        case Some(e) => ContextLine(e)
        case None => Unrecognized
  }

  /** The entry a newline-free line is classified into fits on one rendered row. */
  lemma ClassifyClean(s: string)
    requires NoNewline(s)
    ensures Classify(s).MatchLine? || Classify(s).ContextLine? ==>
              Classify(s).entry.Line? && Clean(Classify(s).entry) && WellParsed(Classify(s).entry)
  {
  }

  // ---------------------------------------------------------------------------
  // what the regular expressions mean

  /** `s` is `f:l:c:t` with `l` and `c` strings of digits. */
  ghost predicate IsMatchSplit(s: string, f: string, l: string, c: string, t: string)
  {
    s == f + ":" + l + ":" + c + ":" + t && AllDigits(l) && AllDigits(c)
  }

  /** `s` is `f-l-t` with `l` a string of digits. */
  ghost predicate IsContextSplit(s: string, f: string, l: string, t: string)
  {
    s == f + "-" + l + "-" + t && AllDigits(l)
  }

  /** A decomposition `f:l:c:t` fixes the colon positions that the fields are found at. */
  lemma MatchSplitFields(s: string, f: string, l: string, c: string, t: string, j: nat, k: nat)
    requires IsMatchSplit(s, f, l, c, t) && j == |f| + 1 + |l| && k == j + 1 + |c|
    ensures s[..|f|] == f && MatchFields(s, |f|) == Some((j, k))
    ensures s[|f| + 1..j] == l && s[j + 1..k] == c && s[k + 1..] == t
  {
    var p1 := f + ":";
    var p2 := p1 + l;
    var p3 := p2 + ":";
    var p4 := p3 + c;
    var p5 := p4 + ":";
    var a := |f|;
    assert |p1| == a + 1 && |p2| == j && |p3| == j + 1 && |p4| == k && |p5| == k + 1;
    assert p1 <= p2 <= p3 <= p4 <= p5 <= s;
    assert s[..a] == f by { SliceOfPrefix(p1, s, 0, a); }
    assert s[a + 1..j] == l by { SliceOfPrefix(p2, s, a + 1, j); }
    assert s[j + 1..k] == c by { SliceOfPrefix(p4, s, j + 1, k); }
    assert s[k + 1..] == t;
    assert s[a] == ':' && s[j] == ':' && s[k] == ':';
    DigitFieldAt(s, a, j, ':');
    DigitFieldAt(s, j, k, ':');
  }

  /** Fields found at `i` are a decomposition `f:l:c:t` with `f` the first `i` characters. */
  lemma FieldsMatchSplit(s: string, i: nat, j: nat, k: nat)
    requires MatchFields(s, i) == Some((j, k))
    ensures i < j < k < |s| && IsMatchSplit(s, s[..i], s[i + 1..j], s[j + 1..k], s[k + 1..])
  {
    assert DigitField(s, i, ':') == Some(j) && DigitField(s, j, ':') == Some(k);
    var p1 := s[..i] + ":";
    TakeSep(s, s[..i], ':');
    var p2 := p1 + s[i + 1..j];
    TakeStep(s, p1, j);
    var p3 := p2 + ":";
    TakeSep(s, p2, ':');
    var p4 := p3 + s[j + 1..k];
    TakeStep(s, p3, k);
    var p5 := p4 + ":";
    TakeSep(s, p4, ':');
    TakeStep(s, p5, |s|);
    assert s[..|s|] == s && s[k + 1..|s|] == s[k + 1..];
  }

  lemma ContextSplitFields(s: string, f: string, l: string, t: string, j: nat)
    requires IsContextSplit(s, f, l, t) && j == |f| + 1 + |l|
    ensures s[..|f|] == f && DigitField(s, |f|, '-') == Some(j)
    ensures s[|f| + 1..j] == l && s[j + 1..] == t
  {
    var p1 := f + "-";
    var p2 := p1 + l;
    var p3 := p2 + "-";
    assert |p1| == |f| + 1 && |p2| == j && |p3| == j + 1;
    assert p1 <= p2 <= p3 <= s;
    assert s[..|f|] == f by { SliceOfPrefix(p1, s, 0, |f|); }
    assert s[|f| + 1..j] == l by { SliceOfPrefix(p2, s, |f| + 1, j); }
    assert s[j + 1..] == t;
    assert s[|f|] == '-' && s[j] == '-';
    DigitFieldAt(s, |f|, j, '-');
  }

  lemma FieldsContextSplit(s: string, i: nat)
    requires DigitField(s, i, '-').Some?
    ensures var j := DigitField(s, i, '-').value;
            i < j < |s| && IsContextSplit(s, s[..i], s[i + 1..j], s[j + 1..])
  {
    var j := DigitField(s, i, '-').value;
    var p1 := s[..i] + "-";
    TakeSep(s, s[..i], '-');
    var p2 := p1 + s[i + 1..j];
    TakeStep(s, p1, j);
    var p3 := p2 + "-";
    TakeSep(s, p2, '-');
    TakeStep(s, p3, |s|);
    assert s[..|s|] == s && s[j + 1..|s|] == s[j + 1..];
  }

  lemma WholeSegment(s: string, i: nat)
    requires NoLineTerminator(s) && i <= |s|
    ensures SegmentStart(s, i) == 0 && SegmentEnd(s, i) == |s|
  {
  }

  /** The split at `i` with field ends `j` and `k`, on a line that is one segment from `i` to its end. */
  predicate MatchOnLine(s: string, i: nat, j: nat, k: nat)
  {
    FirstSplit(s, 0, MatchShape) == Some(i) && MatchFields(s, i) == Some((j, k))
    && SegmentStart(s, i) == 0 && SegmentEnd(s, k + 1) == |s|
  }

  /** On a whole line, the entry `ParseMatch` builds from the split at `i` and the field ends `j` and `k`. */
  lemma ParseMatchAt(s: string, i: nat, j: nat, k: nat)
    requires MatchOnLine(s, i, j, k)
    ensures ParseMatch(s) == Some(Line(s[..i], s[i + 1..j], Some(s[j + 1..k]), s[k + 1..]))
  {
    assert s[0..i] == s[..i] && s[k + 1..|s|] == s[k + 1..];
  }

  /** The split found on a whole line, with its field ends. */
  lemma MatchOnWholeLine(s: string) returns (i: nat, j: nat, k: nat)
    requires NoLineTerminator(s) && FirstSplit(s, 0, MatchShape).Some?
    ensures MatchOnLine(s, i, j, k)
  {
    i := FirstSplit(s, 0, MatchShape).value;
    var jk := MatchFields(s, i).value;
    j, k := jk.0, jk.1;
    WholeSegment(s, i);
    WholeSegment(s, k + 1);
  }

  lemma MatchAtOrBeforeAt(s: string, a: nat, b: nat, c: nat, i: nat, j: nat, k: nat)
    requires MatchFields(s, a) == Some((b, c)) && MatchOnLine(s, i, j, k) && i <= a
    ensures ParseMatch(s).Some?
    ensures var e := ParseMatch(s).value;
            |e.file| < a || e == Line(s[..a], s[a + 1..b], Some(s[b + 1..c]), s[c + 1..])
  {
    ParseMatchAt(s, i, j, k);
    if i == a {
      assert (j, k) == (b, c);
    } else {
      assert |s[..i]| < a;
    }
  }

  /** Fields found at `a` yield an entry whose file is shorter than `a`, or is the first `a` characters with those fields. */
  lemma MatchFoundAtOrBefore(s: string, a: nat, b: nat, c: nat)
    requires NoLineTerminator(s) && MatchFields(s, a) == Some((b, c))
    ensures ParseMatch(s).Some?
    ensures var e := ParseMatch(s).value;
            |e.file| < a || e == Line(s[..a], s[a + 1..b], Some(s[b + 1..c]), s[c + 1..])
  {
    assert SplitsAt(s, a, MatchShape);
    var i, j, k := MatchOnWholeLine(s);
    MatchAtOrBeforeAt(s, a, b, c, i, j, k);
  }

  /** Any decomposition is at least as long in its file as the one found, and equal to it when as short. */
  lemma MatchFoundIsShortest(s: string, f: string, l: string, c: string, t: string)
    requires NoLineTerminator(s) && IsMatchSplit(s, f, l, c, t)
    ensures ParseMatch(s).Some?
    ensures var e := ParseMatch(s).value;
            |e.file| < |f| || (f, l, c, t) == (e.file, e.line, e.column.value, e.result)
  {
    var j := |f| + 1 + |l|;
    var k := j + 1 + |c|;
    MatchSplitFields(s, f, l, c, t, j, k);
    MatchFoundAtOrBefore(s, |f|, j, k);
  }

  lemma MatchSplitAt(s: string, i: nat, j: nat, k: nat)
    requires MatchOnLine(s, i, j, k)
    ensures var e := ParseMatch(s).value;
            IsMatchSplit(s, e.file, e.line, e.column.value, e.result)
  {
    ParseMatchAt(s, i, j, k);
    FieldsMatchSplit(s, i, j, k);
  }

  lemma MatchFoundIsSplit(s: string)
    requires NoLineTerminator(s) && ParseMatch(s).Some?
    ensures var e := ParseMatch(s).value;
            IsMatchSplit(s, e.file, e.line, e.column.value, e.result)
  {
    var i, j, k := MatchOnWholeLine(s);
    MatchSplitAt(s, i, j, k);
  }

  /**
   * On a line without line terminators, the match regular expression finds
   * exactly the decomposition `file:line:column:text` with the shortest
   * file; there is none exactly when no decomposition exists.
   */
  lemma MatchRegexSemantics(s: string)
    requires NoLineTerminator(s)
    ensures ParseMatch(s).None? <==> forall f, l, c, t :: !IsMatchSplit(s, f, l, c, t)
    ensures ParseMatch(s).Some? ==>
              var e := ParseMatch(s).value;
              IsMatchSplit(s, e.file, e.line, e.column.value, e.result)
              && forall f, l, c, t :: IsMatchSplit(s, f, l, c, t) ==>
                   |e.file| < |f| || (f, l, c, t) == (e.file, e.line, e.column.value, e.result)
  {
    forall f, l, c, t | IsMatchSplit(s, f, l, c, t)
      ensures ParseMatch(s).Some?
      ensures var e := ParseMatch(s).value;
              |e.file| < |f| || (f, l, c, t) == (e.file, e.line, e.column.value, e.result)
    {
      MatchFoundIsShortest(s, f, l, c, t);
    }
    if ParseMatch(s).Some? {
      MatchFoundIsSplit(s);
    }
  }

  predicate ContextOnLine(s: string, i: nat, j: nat)
  {
    FirstSplit(s, 0, ContextShape) == Some(i) && DigitField(s, i, '-') == Some(j)
    && SegmentStart(s, i) == 0 && SegmentEnd(s, j + 1) == |s|
  }

  lemma ParseContextAt(s: string, i: nat, j: nat)
    requires ContextOnLine(s, i, j)
    ensures ParseContext(s) == Some(Line(s[..i], s[i + 1..j], None, s[j + 1..]))
  {
    assert s[0..i] == s[..i] && s[j + 1..|s|] == s[j + 1..];
  }

  lemma ContextOnWholeLine(s: string) returns (i: nat, j: nat)
    requires NoLineTerminator(s) && FirstSplit(s, 0, ContextShape).Some?
    ensures ContextOnLine(s, i, j)
  {
    i := FirstSplit(s, 0, ContextShape).value;
    j := DigitField(s, i, '-').value;
    WholeSegment(s, i);
    WholeSegment(s, j + 1);
  }

  lemma ContextAtOrBeforeAt(s: string, a: nat, b: nat, i: nat, j: nat)
    requires DigitField(s, a, '-') == Some(b) && ContextOnLine(s, i, j) && i <= a
    ensures ParseContext(s).Some?
    ensures var e := ParseContext(s).value;
            |e.file| < a || e == Line(s[..a], s[a + 1..b], None, s[b + 1..])
  {
    ParseContextAt(s, i, j);
    if i == a {
      assert j == b;
    } else {
      assert |s[..i]| < a;
    }
  }

  lemma ContextFoundAtOrBefore(s: string, a: nat, b: nat)
    requires NoLineTerminator(s) && DigitField(s, a, '-') == Some(b)
    ensures ParseContext(s).Some?
    ensures var e := ParseContext(s).value;
            |e.file| < a || e == Line(s[..a], s[a + 1..b], None, s[b + 1..])
  {
    assert SplitsAt(s, a, ContextShape);
    var i, j := ContextOnWholeLine(s);
    ContextAtOrBeforeAt(s, a, b, i, j);
  }

  lemma ContextFoundIsShortest(s: string, f: string, l: string, t: string)
    requires NoLineTerminator(s) && IsContextSplit(s, f, l, t)
    ensures ParseContext(s).Some?
    ensures var e := ParseContext(s).value;
            |e.file| < |f| || (f, l, t) == (e.file, e.line, e.result)
  {
    var j := |f| + 1 + |l|;
    ContextSplitFields(s, f, l, t, j);
    ContextFoundAtOrBefore(s, |f|, j);
  }

  lemma ContextSplitAt(s: string, i: nat, j: nat)
    requires ContextOnLine(s, i, j)
    ensures var e := ParseContext(s).value;
            IsContextSplit(s, e.file, e.line, e.result)
  {
    ParseContextAt(s, i, j);
    FieldsContextSplit(s, i);
  }

  lemma ContextFoundIsSplit(s: string)
    requires NoLineTerminator(s) && ParseContext(s).Some?
    ensures var e := ParseContext(s).value;
            IsContextSplit(s, e.file, e.line, e.result)
  {
    var i, j := ContextOnWholeLine(s);
    ContextSplitAt(s, i, j);
  }

  /** The same for the context regular expression and `file-line-text`. */
  lemma ContextRegexSemantics(s: string)
    requires NoLineTerminator(s)
    ensures ParseContext(s).None? <==> forall f, l, t :: !IsContextSplit(s, f, l, t)
    ensures ParseContext(s).Some? ==>
              var e := ParseContext(s).value;
              IsContextSplit(s, e.file, e.line, e.result)
              && forall f, l, t :: IsContextSplit(s, f, l, t) ==>
                   |e.file| < |f| || (f, l, t) == (e.file, e.line, e.result)
  {
    forall f, l, t | IsContextSplit(s, f, l, t)
      ensures ParseContext(s).Some?
      ensures var e := ParseContext(s).value;
              |e.file| < |f| || (f, l, t) == (e.file, e.line, e.result)
    {
      ContextFoundIsShortest(s, f, l, t);
    }
    if ParseContext(s).Some? {
      ContextFoundIsSplit(s);
    }
  }

  /**
   * The order of the tests: a line of the match shape is a match even when
   * it also has the context shape; otherwise `--` is a separator; otherwise a
   * line of the context shape is a context line; anything else is ignored.
   */
  lemma {:induction false} ClassifyPrecedence(s: string)
    requires NoLineTerminator(s)
    ensures Classify(s).MatchLine? <==> exists f, l, c, t :: IsMatchSplit(s, f, l, c, t)
    ensures Classify(s).SeparatorLine? <==>
              (forall f, l, c, t :: !IsMatchSplit(s, f, l, c, t)) && s == "--"
    ensures Classify(s).ContextLine? <==>
              (forall f, l, c, t :: !IsMatchSplit(s, f, l, c, t)) && s != "--"
              && exists f, l, t :: IsContextSplit(s, f, l, t)
    ensures Classify(s).ContextLine? ==> Classify(s).entry.column.None?
    ensures Classify(s).Unrecognized? <==>
              (forall f, l, c, t :: !IsMatchSplit(s, f, l, c, t)) && s != "--"
              && (forall f, l, t :: !IsContextSplit(s, f, l, t))
  {
    MatchRegexSemantics(s);
    ContextRegexSemantics(s);
    if ParseMatch(s).Some? {
      var e := ParseMatch(s).value;
      assert IsMatchSplit(s, e.file, e.line, e.column.value, e.result);
    } else if s != "--" && ParseContext(s).Some? {
      var e := ParseContext(s).value;
      assert IsContextSplit(s, e.file, e.line, e.result);
    }
  }
}
