/**
 * The string operations of the JavaScript runtime that the results
 * formatter relies on: `split('\n')`, `join`, the empty-item filter,
 * decimal digits and `parseInt`, number-to-string conversion and the
 * default ordering that `Array.prototype.sort` uses on strings.
 * Strings are sequences of characters.
 */
module Text {

  /** No character of `s` is a newline, so `s` occupies one rendered row. */
  predicate NoNewline(s: string)
  {
    forall k :: 0 <= k < |s| ==> s[k] != '\n'
  }

  /** The line terminators of JavaScript regular expressions: `.` matches none of them. */
  predicate IsLineTerminator(c: char)
  {
    c == '\n' || c == '\r' || c == '\U{2028}' || c == '\U{2029}'
  }

  /** No character of `s` is a line terminator. */
  predicate NoLineTerminator(s: string)
  {
    forall k :: 0 <= k < |s| ==> !IsLineTerminator(s[k])
  }

  /** `\d` in a (non-unicode) JavaScript regular expression. */
  predicate IsDigit(c: char)
  {
    '0' <= c <= '9'
  }

  /** `s` matches `\d+`. */
  predicate AllDigits(s: string)
  {
    |s| > 0 && forall k :: 0 <= k < |s| ==> IsDigit(s[k])
  }

  // ---------------------------------------------------------------------------
  // split and join

  /** `s.split('\n')`: the pieces between newlines, empty ones included. */
  function Split(s: string): (r: seq<string>)
    ensures |r| >= 1
    ensures forall k :: 0 <= k < |r| ==> NoNewline(r[k])
  {
    if s == [] then [""]
    else
      var rest := Split(s[1..]);
      if s[0] == '\n' then [""] + rest
      else
        var head := [s[0]] + rest[0];
        assert NoNewline(head) by {
          forall k | 0 < k < |head| ensures head[k] != '\n' {
            assert head[k] == rest[0][k - 1];
          }
        }
        [head] + rest[1..]
  }

  /** `ps.join(sep)`: the pieces with `sep` between consecutive ones; `[].join(sep)` is empty. */
  function Join(ps: seq<string>, sep: string): string
  {
    if |ps| == 0 then ""
    else if |ps| == 1 then ps[0]
    else ps[0] + sep + Join(ps[1..], sep)
  }

  /** Splitting a string that starts with `c`. */
  lemma SplitCons(c: char, t: string)
    ensures Split([c] + t) ==
            if c == '\n' then [""] + Split(t) else [[c] + Split(t)[0]] + Split(t)[1..]
  {
    assert ([c] + t)[1..] == t;
  }

  /** Splitting at a newline splits the two sides independently. */
  lemma {:induction false} SplitAppend(a: string, b: string)
    ensures Split(a + "\n" + b) == Split(a) + Split(b)
  {
    if a == [] {
      assert a + "\n" + b == ['\n'] + b;
      SplitCons('\n', b);
    } else {
      var t := a[1..] + "\n" + b;
      assert a + "\n" + b == [a[0]] + t;
      assert a == [a[0]] + a[1..];
      SplitAppend(a[1..], b);
      SplitCons(a[0], t);
      SplitCons(a[0], a[1..]);
      var left := Split(a[1..]);
      if a[0] == '\n' {
        ConcatAssoc([""], left, Split(b));
      } else {
        assert (left + Split(b))[1..] == left[1..] + Split(b);
        ConcatAssoc([[a[0]] + left[0]], left[1..], Split(b));
      }
    }
  }

  /** A newline-free string is one piece. */
  lemma {:induction false} SplitNoNewline(s: string)
    requires NoNewline(s)
    ensures Split(s) == [s]
  {
    if s != [] {
      SplitNoNewline(s[1..]);
      assert [s[0]] + s[1..] == s;
    }
  }

  /** Join then split gives back newline-free pieces. */
  lemma {:induction false} SplitJoin(ps: seq<string>)
    requires |ps| >= 1
    requires forall k :: 0 <= k < |ps| ==> NoNewline(ps[k])
    ensures Split(Join(ps, "\n")) == ps
  {
    if |ps| == 1 {
      SplitNoNewline(ps[0]);
    } else {
      SplitJoin(ps[1..]);
      SplitAppend(ps[0], Join(ps[1..], "\n"));
      SplitNoNewline(ps[0]);
      assert [ps[0]] + ps[1..] == ps;
    }
  }

  /** Splitting a join splits each joined part: the pieces of the parts, in order. */
  lemma {:induction false} SplitOfJoin(a: string, ps: seq<string>)
    requires |ps| >= 1
    ensures Split(Join([a] + ps, "\n")) == Split(a) + Split(Join(ps, "\n"))
  {
    assert ([a] + ps)[0] == a && ([a] + ps)[1..] == ps;
    SplitAppend(a, Join(ps, "\n"));
  }

  lemma ConcatAssoc<T>(a: seq<T>, b: seq<T>, c: seq<T>)
    ensures a + (b + c) == (a + b) + c
  {
    forall k | 0 <= k < |a| + |b| + |c|
      ensures (a + (b + c))[k] == ((a + b) + c)[k]
    {
    }
  }

  /** A slice that ends inside the prefix `p` of `s` is the same slice of `p`. */
  lemma SliceOfPrefix<T>(p: seq<T>, s: seq<T>, i: nat, j: nat)
    requires p <= s && i <= j <= |p|
    ensures s[i..j] == p[i..j]
  {
  }

  /** A prefix `p` of `s` extended by the next slice of `s`. */
  lemma TakeStep<T>(s: seq<T>, p: seq<T>, y: nat)
    requires p <= s && |p| <= y <= |s|
    ensures p + s[|p|..y] == s[..y]
  {
  }

  /** A prefix `p` of `s` extended by the next element `d` of `s`. */
  lemma TakeSep<T>(s: seq<T>, p: seq<T>, d: T)
    requires p <= s && |p| < |s| && s[|p|] == d
    ensures p + [d] <= s
  {
  }

  lemma JoinExtendFirst(x: string, r: seq<string>)
    requires |r| >= 1
    ensures Join([x + r[0]] + r[1..], "\n") == x + Join(r, "\n")
  {
    var t := [x + r[0]] + r[1..];
    assert |t| == |r| && t[0] == x + r[0];
    if |r| > 1 {
      var tail := Join(r[1..], "\n");
      assert t[1..] == r[1..];
      assert Join(t, "\n") == (x + r[0]) + "\n" + tail;
      assert Join(r, "\n") == r[0] + "\n" + tail;
      ConcatAssoc(x, r[0] + "\n", tail);
      ConcatAssoc(x, r[0], "\n");
    }
  }

  /** Split then join gives back the original string: no character is lost by `split`. */
  lemma {:induction false} JoinSplit(s: string)
    ensures Join(Split(s), "\n") == s
  {
    if s != [] {
      var rest := Split(s[1..]);
      JoinSplit(s[1..]);
      if s[0] == '\n' {
        assert Split(s) == [""] + rest;
        assert ([""] + rest)[1..] == rest;
        assert [s[0]] + s[1..] == s;
      } else {
        JoinExtendFirst([s[0]], rest);
        assert [s[0]] + s[1..] == s;
      }
    }
  }

  /** The index of the first `c` in `s`, or `|s|` when there is none. */
  function IndexOf(s: string, c: char): (r: nat)
    ensures r <= |s|
    ensures forall k :: 0 <= k < r ==> s[k] != c
    ensures r < |s| ==> s[r] == c
  {
    if s == [] || s[0] == c then 0 else 1 + IndexOf(s[1..], c)
  }

  // ---------------------------------------------------------------------------
  // the empty-item filter

  /** `ps.filter(item => item != null && item.length > 0)`: the non-empty pieces, in order. */
  function NonEmpty(ps: seq<string>): seq<string>
  {
    if ps == [] then []
    else (if ps[0] != [] then [ps[0]] else []) + NonEmpty(ps[1..])
  }

  /** The filter keeps exactly the non-empty pieces. */
  lemma {:induction false} NonEmptyMembers(ps: seq<string>)
    ensures forall x :: x in NonEmpty(ps) <==> x in ps && x != []
    ensures |NonEmpty(ps)| <= |ps|
  {
    if ps != [] {
      NonEmptyMembers(ps[1..]);
      assert ps == [ps[0]] + ps[1..];
    }
  }

  /** The filter distributes over concatenation: it keeps the non-empty pieces in order, each as often as it occurs. */
  lemma {:induction false} NonEmptyAppend(a: seq<string>, b: seq<string>)
    ensures NonEmpty(a + b) == NonEmpty(a) + NonEmpty(b)
  {
    if a == [] {
      assert a + b == b;
    } else {
      assert (a + b)[1..] == a[1..] + b;
      NonEmptyAppend(a[1..], b);
      ConcatAssoc(if a[0] != [] then [a[0]] else [], NonEmpty(a[1..]), NonEmpty(b));
    }
  }

  /** A single piece is kept exactly when it is not empty. */
  lemma NonEmptySingle(x: string)
    ensures NonEmpty([x]) == if x != [] then [x] else []
  {
    assert [x][1..] == [];
  }

  /** The filter keeps as many pieces as there are pieces that are not empty. */
  lemma {:induction false} NonEmptyCount(ps: seq<string>)
    ensures |NonEmpty(ps)| == |ps| - multiset(ps)[""]
  {
    if ps != [] {
      NonEmptyCount(ps[1..]);
      assert ps == [ps[0]] + ps[1..];
      assert multiset(ps) == multiset{ps[0]} + multiset(ps[1..]);
    }
  }

  // ---------------------------------------------------------------------------
  // counting newlines

  /** The number of newlines in `s`. */
  function Newlines(s: string): nat
  {
    if s == [] then 0 else (if s[0] == '\n' then 1 else 0) + Newlines(s[1..])
  }

  /** `split('\n')` yields one piece more than there are newlines. */
  lemma {:induction false} SplitLength(s: string)
    ensures |Split(s)| == Newlines(s) + 1
  {
    if s != [] {
      SplitLength(s[1..]);
    }
  }

  lemma {:induction false} NewlinesAppend(a: string, b: string)
    ensures Newlines(a + b) == Newlines(a) + Newlines(b)
  {
    if a == [] {
      assert a + b == b;
    } else {
      assert (a + b)[1..] == a[1..] + b;
      NewlinesAppend(a[1..], b);
    }
  }

  /** A string counts no newline exactly when it holds none. */
  lemma {:induction false} NewlinesZero(s: string)
    ensures Newlines(s) == 0 <==> NoNewline(s)
  {
    if s != [] {
      NewlinesZero(s[1..]);
      if s[0] != '\n' && NoNewline(s[1..]) {
        forall k | 0 <= k < |s| ensures s[k] != '\n' {
          if k > 0 { assert s[k] == s[1..][k - 1]; }
        }
      }
      if NoNewline(s) {
        forall k | 0 <= k < |s[1..]| ensures s[1..][k] != '\n' {
          assert s[1..][k] == s[k + 1];
        }
      }
    }
  }

  // ---------------------------------------------------------------------------
  // decimal numbers

  function DigitValue(c: char): nat
    requires IsDigit(c)
  {
    c as int - '0' as int
  }

  function DigitChar(d: nat): (c: char)
    requires d < 10
    ensures IsDigit(c) && DigitValue(c) == d
  {
    ('0' as int + d) as char
  }

  /** `parseInt(s, 10)` of a string of decimal digits. */
  function DigitsValue(s: string): nat
    requires forall k :: 0 <= k < |s| ==> IsDigit(s[k])
  {
    if s == [] then 0
    else DigitsValue(s[..|s| - 1]) * 10 + DigitValue(s[|s| - 1])
  }

  /** `${n}`: the decimal rendering of a natural number, with no leading zero. */
  function NatToString(n: nat): (r: string)
    ensures AllDigits(r)
    ensures r[0] == '0' <==> n == 0
    ensures |r| > 1 ==> r[0] != '0'
  {
    if n < 10 then [DigitChar(n)]
    else NatToString(n / 10) + [DigitChar(n % 10)]
  }

  /** `parseInt` undoes the decimal rendering. */
  lemma {:induction false} NatToStringRoundTrip(n: nat)
    ensures DigitsValue(NatToString(n)) == n
  {
    if n >= 10 {
      NatToStringRoundTrip(n / 10);
      var r := NatToString(n);
      assert r[..|r| - 1] == NatToString(n / 10);
    } else {
      assert NatToString(n)[..0] == [];
    }
  }

  /** A rendered number occupies a single row. */
  lemma NatToStringNoNewline(n: nat)
    ensures NoNewline(NatToString(n))
  {
  }

  // ---------------------------------------------------------------------------
  // the default string order of `sort()` and the sorted key list

  /** `a < b` on strings: character by character, a proper prefix first. */
  predicate LexLess(a: string, b: string)
  {
    if a == [] then b != []
    else b != [] && (a[0] < b[0] || (a[0] == b[0] && LexLess(a[1..], b[1..])))
  }

  lemma {:induction false} LexLessIrreflexive(a: string)
    ensures !LexLess(a, a)
  {
    if a != [] {
      LexLessIrreflexive(a[1..]);
    }
  }

  lemma {:induction false} LexLessTransitive(a: string, b: string, c: string)
    requires LexLess(a, b) && LexLess(b, c)
    ensures LexLess(a, c)
  {
    if a != [] && a[0] == b[0] && b[0] == c[0] {
      LexLessTransitive(a[1..], b[1..], c[1..]);
    }
  }

  lemma {:induction false} LexLessTotal(a: string, b: string)
    ensures a == b || LexLess(a, b) || LexLess(b, a)
  {
    if a != [] && b != [] && a[0] == b[0] {
      LexLessTotal(a[1..], b[1..]);
      if a[1..] == b[1..] {
        assert a == [a[0]] + a[1..] && b == [b[0]] + b[1..];
      }
    }
  }

  /** `x` comes before every other element of `s`. */
  predicate IsLeast(x: string, s: set<string>)
  {
    x in s && forall y :: y in s ==> x == y || LexLess(x, y)
  }

  lemma {:induction false} LeastExists(s: set<string>)
    requires s != {}
    ensures exists x :: IsLeast(x, s)
    decreases |s|
  {
    var y :| y in s;
    if s == {y} {
      assert IsLeast(y, s);
    } else {
      LeastExists(s - {y});
      var x :| IsLeast(x, s - {y});
      LexLessTotal(x, y);
      if LexLess(x, y) {
        assert IsLeast(x, s);
      } else {
        forall z | z in s
          ensures y == z || LexLess(y, z)
        {
          if z != y && z != x {
            LexLessTransitive(y, x, z);
          }
        }
        assert IsLeast(y, s);
      }
    }
  }

  lemma LeastUnique(s: set<string>)
    ensures forall x, y :: IsLeast(x, s) && IsLeast(y, s) ==> x == y
  {
    forall x, y | IsLeast(x, s) && IsLeast(y, s)
      ensures x == y
    {
      if x != y {
        assert LexLess(x, y) && LexLess(y, x);
        LexLessTransitive(x, y, x);
        LexLessIrreflexive(x);
      }
    }
  }

  /** `Object.keys(m).sort()`: the keys in ascending order, each once. */
  function SortedKeys(s: set<string>): (r: seq<string>)
    ensures |r| == |s|
    ensures forall x :: x in r <==> x in s
    ensures forall i, j :: 0 <= i < j < |r| ==> LexLess(r[i], r[j])
    decreases |s|
  {
    if s == {} then []
    else
      LeastExists(s);
      LeastUnique(s);
      var x :| IsLeast(x, s);
      var rest := SortedKeys(s - {x});
      assert forall j :: 0 <= j < |rest| ==> LexLess(x, rest[j]) by {
        forall j | 0 <= j < |rest| ensures LexLess(x, rest[j]) {
          assert rest[j] in s - {x};
        }
      }
      [x] + rest
  }
}
