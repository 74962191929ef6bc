/**
 * The pieces of Python's `str` behaviour the model relies on: `rstrip`/`lstrip`
 * with an explicit character set, whitespace stripping, `s[:-1]`, `split` on a
 * one-character separator, and the code-point lexicographic order that
 * `sorted` and `<` use on strings.
 */
module Strings {

  /** The characters for which Python's `str.isspace()` is true. */
  const Whitespace: set<char> := {
    '\t', '\n', '\U{B}', '\U{C}', '\r', '\U{1C}', '\U{1D}', '\U{1E}', '\U{1F}', ' ',
    '\U{85}', '\U{A0}', '\U{1680}', '\U{2000}', '\U{2001}', '\U{2002}', '\U{2003}',
    '\U{2004}', '\U{2005}', '\U{2006}', '\U{2007}', '\U{2008}', '\U{2009}', '\U{200A}',
    '\U{2028}', '\U{2029}', '\U{202F}', '\U{205F}', '\U{3000}'
  }

  /** `s.rstrip(chars)`: drop every trailing character that is in `drop`. */
  function RStrip(s: string, drop: set<char>): (r: string)
    ensures |r| <= |s| && r == s[..|r|]
    ensures r == [] || r[|r| - 1] !in drop
    ensures forall i :: |r| <= i < |s| ==> s[i] in drop
    decreases |s|
  {
    if s != [] && s[|s| - 1] in drop then RStrip(s[..|s| - 1], drop) else s
  }

  /** `s.lstrip(chars)`: drop every leading character that is in `drop`. */
  function LStrip(s: string, drop: set<char>): (r: string)
    ensures |r| <= |s| && r == s[|s| - |r|..]
    ensures r == [] || r[0] !in drop
    ensures forall i :: 0 <= i < |s| - |r| ==> s[i] in drop
    decreases |s|
  {
    if s != [] && s[0] in drop then LStrip(s[1..], drop) else s
  }

  /** `s.rstrip()` with no argument. */
  function RStripSpace(s: string): (r: string)
    ensures |r| <= |s| && r == s[..|r|]
  {
    RStrip(s, Whitespace)
  }

  /** `s[:-1]`: everything but the last character, and "" for "". */
  function DropLast(s: string): (r: string)
    ensures |r| == if s == [] then 0 else |s| - 1
    ensures r == s[..|r|]
  {
    if s == [] then [] else s[..|s| - 1]
  }

  /** Stripping a character set twice strips nothing more. */
  lemma RStripIdempotent(s: string, drop: set<char>)
    ensures RStrip(RStrip(s, drop), drop) == RStrip(s, drop)
  {
  }

  /** Characters appended from the stripped set vanish again. */
  lemma {:induction false} RStripAppended(s: string, tail: string, drop: set<char>)
    requires forall i :: 0 <= i < |tail| ==> tail[i] in drop
    ensures RStrip(s + tail, drop) == RStrip(s, drop)
    decreases |tail|
  {
    if tail != [] {
      var shorter := tail[..|tail| - 1];
      assert (s + tail)[..|s + tail| - 1] == s + shorter;
      RStripAppended(s, shorter, drop);
    } else {
      assert s + tail == s;
    }
  }

  /** A prefix-preserving form: a leading stripped character vanishes. */
  lemma {:induction false} LStripPrepended(c: char, s: string, drop: set<char>)
    requires c in drop
    ensures LStrip([c] + s, drop) == LStrip(s, drop)
  {
    assert ([c] + s)[1..] == s;
  }

  /** Every character of `s` is in `drop`. */
  predicate AllIn(s: string, drop: set<char>)
  {
    forall i :: 0 <= i < |s| ==> s[i] in drop
  }

  /** Left-stripping a concatenation only reaches into `b` when all of `a` is stripped. */
  lemma {:induction false} LStripConcat(a: string, b: string, drop: set<char>)
    ensures LStrip(a + b, drop) ==
      if AllIn(a, drop) then LStrip(b, drop) else LStrip(a, drop) + b
    decreases |a|
  {
    if a == [] {
      assert a + b == b;
    } else if a[0] in drop {
      assert (a + b)[1..] == a[1..] + b;
      assert LStrip(a + b, drop) == LStrip(a[1..] + b, drop);
      LStripConcat(a[1..], b, drop);
      AllOrFirstMissing(a, drop);
    } else {
      assert (a + b)[0] == a[0];
    }
  }

  /** With its first character in `drop`, `a` lies in `drop` exactly when its tail does. */
  lemma AllOrFirstMissing(a: string, drop: set<char>)
    requires a != [] && a[0] in drop
    ensures AllIn(a, drop) <==> AllIn(a[1..], drop)
  {
    if AllIn(a[1..], drop) {
      forall i | 0 <= i < |a| ensures a[i] in drop {
        if i > 0 { assert a[i] == a[1..][i - 1]; }
      }
    }
  }

  /** Right-stripping a concatenation only reaches into `a` when all of `b` is stripped. */
  lemma {:induction false} RStripConcat(a: string, b: string, drop: set<char>)
    ensures RStrip(a + b, drop) ==
      if AllIn(b, drop) then RStrip(a, drop) else a + RStrip(b, drop)
    decreases |b|
  {
    if b == [] {
      assert a + b == a;
    } else if b[|b| - 1] in drop {
      var n := |b| - 1;
      assert (a + b)[..|a + b| - 1] == a + b[..n];
      assert RStrip(a + b, drop) == RStrip(a + b[..n], drop);
      RStripConcat(a, b[..n], drop);
      AllOrLastMissing(b, drop);
    } else {
      assert (a + b)[|a + b| - 1] == b[|b| - 1];
    }
  }

  /** With its last character in `drop`, `b` lies in `drop` exactly when its front does. */
  lemma AllOrLastMissing(b: string, drop: set<char>)
    requires b != [] && b[|b| - 1] in drop
    ensures AllIn(b, drop) <==> AllIn(b[..|b| - 1], drop)
  {
    var front := b[..|b| - 1];
    if AllIn(front, drop) {
      forall i | 0 <= i < |b| ensures b[i] in drop {
        if i < |front| { assert b[i] == front[i]; }
      }
    }
  }

  // ---------------------------------------------------------------------------
  // split / join on a one-character separator

  /** `s.split(sep)` for a one-character `sep`: never empty, "" gives [""]. */
  function Split(s: string, sep: char): (r: seq<string>)
    ensures |r| >= 1
    decreases |s|
  {
    if s == [] then [""]
    else
      var rest := Split(s[1..], sep);
      if s[0] == sep then [""] + rest else [[s[0]] + rest[0]] + rest[1..]
  }

  /** `sep.join(parts)`. */
  function Join(parts: seq<string>, sep: char): string
    decreases |parts|
  {
    if parts == [] then ""
    else if |parts| == 1 then parts[0]
    else parts[0] + [sep] + Join(parts[1..], sep)
  }

  /** Splitting then joining gives the string back. */
  lemma {:induction false} SplitJoin(s: string, sep: char)
    ensures Join(Split(s, sep), sep) == s
    decreases |s|
  {
    if s != [] {
      SplitJoin(s[1..], sep);
      var rest := Split(s[1..], sep);
      if s[0] == sep {
        JoinFront("", rest, sep);
      } else {
        SplitJoinStep(s[0], rest, sep);
      }
      assert s == [s[0]] + s[1..];
    }
  }

  /** Joining a piece in front of at least one more. */
  lemma JoinFront(p: string, parts: seq<string>, sep: char)
    requires parts != []
    ensures Join([p] + parts, sep) == p + [sep] + Join(parts, sep)
  {
    assert ([p] + parts)[1..] == parts;
  }

  /** Joining after a character is glued to the first piece. */
  lemma SplitJoinStep(c: char, rest: seq<string>, sep: char)
    requires rest != []
    ensures Join([[c] + rest[0]] + rest[1..], sep) == [c] + Join(rest, sep)
  {
    if |rest| > 1 {
      JoinFront([c] + rest[0], rest[1..], sep);
      JoinFront(rest[0], rest[1..], sep);
      assert [rest[0]] + rest[1..] == rest;
    }
  }

  /** No piece of a split holds the separator. */
  lemma {:induction false} SplitPiecesClean(s: string, sep: char)
    ensures forall i :: 0 <= i < |Split(s, sep)| ==> sep !in Split(s, sep)[i]
    decreases |s|
  {
    if s != [] {
      SplitPiecesClean(s[1..], sep);
      var rest := Split(s[1..], sep);
      var r := Split(s, sep);
      forall i | 0 <= i < |r| ensures sep !in r[i] {
        if s[0] == sep {
          if i > 0 { assert r[i] == rest[i - 1]; }
        } else if i > 0 {
          assert r[i] == rest[i];
        }
      }
    }
  }

  /** A first piece without the separator is split off whole. */
  lemma {:induction false} SplitPrefix(a: string, b: string, sep: char)
    requires sep !in a
    ensures Split(a + [sep] + b, sep) == [a] + Split(b, sep)
    decreases |a|
  {
    if a == [] {
      assert a + [sep] + b == [sep] + b;
      assert ([sep] + b)[1..] == b;
    } else {
      SplitPrefix(a[1..], b, sep);
      assert (a + [sep] + b)[1..] == a[1..] + [sep] + b;
      assert [a[0]] + a[1..] == a;
    }
  }

  /** A string without the separator is one piece. */
  lemma {:induction false} SplitNoSeparator(s: string, sep: char)
    requires sep !in s
    ensures Split(s, sep) == [s]
    decreases |s|
  {
    if s != [] {
      SplitNoSeparator(s[1..], sep);
      assert [s[0]] + s[1..] == s;
    }
  }

  /** A string holding the separator splits into at least two pieces. */
  lemma {:induction false} SplitAtSeparator(s: string, sep: char)
    requires sep in s
    ensures |Split(s, sep)| >= 2
    decreases |s|
  {
    if s[0] != sep {
      assert sep in s[1..] by {
        var k :| 0 <= k < |s| && s[k] == sep;
        assert s[1..][k - 1] == sep;
      }
      SplitAtSeparator(s[1..], sep);
    }
  }

  /** `s.split(sep)` is a single piece exactly when `sep` does not occur in `s`. */
  lemma SplitOnePiece(s: string, sep: char)
    ensures |Split(s, sep)| == 1 <==> sep !in s
  {
    if sep in s { SplitAtSeparator(s, sep); } else { SplitNoSeparator(s, sep); }
  }

  /** Joining pieces free of the separator, then splitting, gives the pieces back. */
  lemma {:induction false} JoinSplit(parts: seq<string>, sep: char)
    requires parts != []
    requires forall i :: 0 <= i < |parts| ==> sep !in parts[i]
    ensures Split(Join(parts, sep), sep) == parts
    decreases |parts|
  {
    if |parts| == 1 {
      SplitNoSeparator(parts[0], sep);
    } else {
      JoinSplit(parts[1..], sep);
      SplitPrefix(parts[0], Join(parts[1..], sep), sep);
      assert [parts[0]] + parts[1..] == parts;
    }
  }

  /** Joining one more piece appends the separator and that piece. */
  lemma {:induction false} JoinAppend(parts: seq<string>, p: string, sep: char)
    requires parts != []
    ensures Join(parts + [p], sep) == Join(parts, sep) + [sep] + p
    decreases |parts|
  {
    if |parts| == 1 {
      assert (parts + [p])[1..] == [p];
    } else {
      JoinAppend(parts[1..], p, sep);
      assert (parts + [p])[1..] == parts[1..] + [p];
    }
  }

  // ---------------------------------------------------------------------------
  // lexicographic order on code points (Python's `<` on str)

  /** `a < b` on Python strings: a proper prefix is smaller, else the first differing code point decides. */
  predicate LexLess(a: string, b: string)
    decreases |a|
  {
    if a == [] then b != []
    else if b == [] then false
    else if a[0] != b[0] then a[0] < b[0]
    else LexLess(a[1..], b[1..])
  }

  predicate LexLeq(a: string, b: string) {
    a == b || LexLess(a, b)
  }

  lemma {:induction false} LexIrreflexive(a: string)
    ensures !LexLess(a, a)
    decreases |a|
  {
    if a != [] { LexIrreflexive(a[1..]); }
  }

  lemma {:induction false} LexAsymmetric(a: string, b: string)
    ensures !(LexLess(a, b) && LexLess(b, a))
    decreases |a|
  {
    if a != [] && b != [] && a[0] == b[0] { LexAsymmetric(a[1..], b[1..]); }
  }

  lemma {:induction false} LexTransitive(a: string, b: string, c: string)
    requires LexLess(a, b) && LexLess(b, c)
    ensures LexLess(a, c)
    decreases |a|
  {
    if a != [] && a[0] == b[0] && b[0] == c[0] {
      LexTransitive(a[1..], b[1..], c[1..]);
    }
  }

  lemma {:induction false} LexTotal(a: string, b: string)
    ensures a == b || LexLess(a, b) || LexLess(b, a)
    decreases |a|
  {
    if a != [] && b != [] && a[0] == b[0] {
      LexTotal(a[1..], b[1..]);
      assert a == [a[0]] + a[1..] && b == [b[0]] + b[1..];
    }
  }

  lemma LexLeqTransitive(a: string, b: string, c: string)
    requires LexLeq(a, b) && LexLeq(b, c)
    ensures LexLeq(a, c)
  {
    if a != b && b != c { LexTransitive(a, b, c); }
  }

  // ---------------------------------------------------------------------------
  // sorted(...)

  ghost predicate Sorted(s: seq<string>) {
    forall i, j :: 0 <= i < j < |s| ==> LexLeq(s[i], s[j])
  }

  /** Sorted with no repeated element: each element strictly before the next. */
  ghost predicate StrictlySorted(s: seq<string>) {
    forall i, j :: 0 <= i < j < |s| ==> LexLess(s[i], s[j])
  }

  function Insert(x: string, s: seq<string>): (r: seq<string>)
    requires Sorted(s)
    ensures multiset(r) == multiset(s) + multiset{x}
    ensures Sorted(r)
    decreases |s|
  {
    if s == [] then [x]
    else if LexLeq(x, s[0]) then
      LexLeqAllSorted(x, s);
      [x] + s
    else
      LexTotal(x, s[0]);
      var rest := Insert(x, s[1..]);
      assert s == [s[0]] + s[1..];
      HeadBelowInsert(x, s, rest);
      [s[0]] + rest
  }

  lemma LexLeqAllSorted(x: string, s: seq<string>)
    requires Sorted(s) && s != [] && LexLeq(x, s[0])
    ensures Sorted([x] + s)
  {
    var r := [x] + s;
    forall i, j | 0 <= i < j < |r| ensures LexLeq(r[i], r[j]) {
      if i == 0 { LexLeqTransitive(x, s[0], s[j - 1]); }
    }
  }

  lemma HeadBelowInsert(x: string, s: seq<string>, rest: seq<string>)
    requires Sorted(s) && s != [] && LexLess(s[0], x)
    requires multiset(rest) == multiset(s[1..]) + multiset{x} && Sorted(rest)
    ensures Sorted([s[0]] + rest)
  {
    var r := [s[0]] + rest;
    forall i, j | 0 <= i < j < |r| ensures LexLeq(r[i], r[j]) {
      if i == 0 {
        var y := rest[j - 1];
        assert y in multiset(rest);
        if y == x {
        } else {
          assert y in multiset(s[1..]);
          var k :| 0 <= k < |s[1..]| && s[1..][k] == y;
          assert s[k + 1] == y;
        }
      }
    }
  }

  /** Python's `sorted` on a list of strings (an insertion sort; any correct sort gives the same list). */
  function Sort(s: seq<string>): (r: seq<string>)
    ensures multiset(r) == multiset(s)
    ensures Sorted(r)
    decreases |s|
  {
    if s == [] then []
    else
      assert s == [s[0]] + s[1..];
      Insert(s[0], Sort(s[1..]))
  }

  /** Two strictly increasing lists with the same members are the same list. */
  lemma {:induction false} StrictlySortedUnique(a: seq<string>, b: seq<string>)
    requires StrictlySorted(a) && StrictlySorted(b)
    requires forall x :: x in a <==> x in b
    ensures a == b
    decreases |a|
  {
    assert b != [] ==> b[0] in a;
    if a != [] {
      assert a[0] in b;
      assert b != [];
      if a[0] != b[0] {
        assert b[0] in b;
        var i :| 0 <= i < |a| && a[i] == b[0];
        var j :| 0 <= j < |b| && b[j] == a[0];
        LexIrreflexive(a[0]);
        LexAsymmetric(a[0], b[0]);
      }
      forall x ensures x in a[1..] <==> x in b[1..] {
        StrictHeadNotInTail(a, x);
        StrictHeadNotInTail(b, x);
      }
      StrictlySortedUnique(a[1..], b[1..]);
      assert a == [a[0]] + a[1..] && b == [b[0]] + b[1..];
    }
  }

  /** In a strictly increasing list, the tail holds every member but the head. */
  lemma StrictHeadNotInTail(a: seq<string>, x: string)
    requires StrictlySorted(a) && a != []
    ensures x in a[1..] <==> x in a && x != a[0]
  {
    if x in a[1..] {
      var i :| 0 <= i < |a[1..]| && a[1..][i] == x;
      assert LexLess(a[0], a[i + 1]);
      LexIrreflexive(a[0]);
    }
    if x in a && x != a[0] {
      var i :| 0 <= i < |a| && a[i] == x;
      assert a[1..][i - 1] == x;
    }
  }

  /** A sorted list without repeats is strictly increasing. */
  lemma SortedDistinctIsStrict(s: seq<string>)
    requires Sorted(s)
    requires forall i, j :: 0 <= i < j < |s| ==> s[i] != s[j]
    ensures StrictlySorted(s)
  {
  }
}
