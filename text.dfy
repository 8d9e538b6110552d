/**
 * The handful of Python string operations both scripts rely on: whitespace as
 * `str.isspace` and the `\s` class of `re` see it, `str.strip`, `str.lstrip`,
 * `startswith`/`endswith`, `"sep".join` and reading a text file line by line
 * (universal-newline translation followed by `readlines`).
 */
module Text {

  /** Python's `str.isspace()`; for `str` patterns `re`'s `\s` is the same class. */
  predicate IsSpace(c: char) {
    || c == ' '
    || ('\t' <= c <= '\r')
    || ('\U{1c}' <= c <= '\U{1f}')
    || c == '\U{85}' || c == '\U{a0}' || c == '\U{1680}'
    || ('\U{2000}' <= c <= '\U{200a}')
    || c == '\U{2028}' || c == '\U{2029}' || c == '\U{202f}' || c == '\U{205f}' || c == '\U{3000}'
  }

  /** `re`'s `\d`, restricted to the ASCII digits. */
  predicate IsDigit(c: char) {
    '0' <= c <= '9'
  }

  predicate AllSpace(s: string) {
    forall i | 0 <= i < |s| :: IsSpace(s[i])
  }

  /** Neither end of `s` is whitespace: what `str.strip` leaves behind. */
  predicate Trimmed(s: string) {
    s == [] || (!IsSpace(s[0]) && !IsSpace(s[|s| - 1]))
  }

  predicate StartsWith(s: string, prefix: string) {
    |prefix| <= |s| && s[..|prefix|] == prefix
  }

  predicate EndsWith(s: string, suffix: string) {
    |suffix| <= |s| && s[|s| - |suffix|..] == suffix
  }

  /** End of the longest run of whitespace starting at `i`. */
  function SpaceRunEnd(s: string, i: nat): (j: nat)
    requires i <= |s|
    ensures i <= j <= |s|
    ensures forall k | i <= k < j :: IsSpace(s[k])
    ensures j == |s| || !IsSpace(s[j])
    decreases |s| - i
  {
    if i < |s| && IsSpace(s[i]) then SpaceRunEnd(s, i + 1) else i
  }

  /** `s.lstrip()` */
  function StripLeft(s: string): (r: string)
    ensures |r| <= |s| && r == s[|s| - |r|..]
    ensures AllSpace(s[..|s| - |r|])
    ensures r == [] || !IsSpace(r[0])
  {
    var j := SpaceRunEnd(s, 0);
    assert AllSpace(s[..j]) by {
      forall k | 0 <= k < j ensures IsSpace(s[..j][k]) { assert s[..j][k] == s[k]; }
    }
    s[j..]
  }

  /** `s.rstrip()` */
  function StripRight(s: string): (r: string)
    ensures |r| <= |s| && r == s[..|r|]
    ensures AllSpace(s[|r|..])
    ensures r == [] || !IsSpace(r[|r| - 1])
  {
    if |s| > 0 && IsSpace(s[|s| - 1]) then
      var r := StripRight(s[..|s| - 1]);
      assert s[|r|..] == s[..|s| - 1][|r|..] + [s[|s| - 1]];
      r
    else
      s
  }

  /** `s.strip()` */
  function Strip(s: string): (r: string)
    ensures Trimmed(r)
    ensures |r| <= |s|
  {
    StripRight(StripLeft(s))
  }

  /** `s.lstrip(c)` for a single character `c`. */
  function LStripChar(s: string, c: char): (r: string)
    ensures |r| <= |s| && r == s[|s| - |r|..]
    ensures forall k | 0 <= k < |s| - |r| :: s[k] == c
    ensures r == [] || r[0] != c
  {
    if |s| > 0 && s[0] == c then LStripChar(s[1..], c) else s
  }

  /** Position of the first `c` in `s`, or `|s|` when there is none. */
  function IndexOf(s: string, c: char): (k: nat)
    ensures k <= |s|
    ensures k < |s| ==> s[k] == c
    ensures forall i | 0 <= i < k :: s[i] != c
  {
    IndexFrom(s, c, 0)
  }

  /** Position of the first `c` in `s` at or after `i`, or `|s|`. */
  function IndexFrom(s: string, c: char, i: nat): (k: nat)
    requires i <= |s|
    ensures i <= k <= |s|
    ensures k < |s| ==> s[k] == c
    ensures forall j | i <= j < k :: s[j] != c
    decreases |s| - i
  {
    if i == |s| then i else if s[i] == c then i else IndexFrom(s, c, i + 1)
  }

  /**
   * Universal-newline translation done by `open(..., 'r')`: `"\r\n"` and a
   * lone `"\r"` both read as `"\n"`.
   */
  function UniversalNewlines(s: string): (r: string)
    ensures '\r' !in r
    ensures |r| <= |s|
  {
    if s == [] then []
    else if s[0] == '\r' then
      "\n" + UniversalNewlines(if |s| > 1 && s[1] == '\n' then s[2..] else s[1..])
    else
      [s[0]] + UniversalNewlines(s[1..])
  }

  /** `f.readlines()` on already translated text: every line keeps its `"\n"`. */
  function SplitLines(s: string): (r: seq<string>)
    ensures forall i | 0 <= i < |r| :: r[i] != []
    decreases |s|
  {
    if s == [] then []
    else
      var k := IndexOf(s, '\n');
      if k == |s| then [s] else [s[..k + 1]] + SplitLines(s[k + 1..])
  }

  /** The lines Python reads from a text file whose bytes decode to `s`. */
  function ReadLines(s: string): seq<string> {
    SplitLines(UniversalNewlines(s))
  }

  /** `sep.join(xs)` */
  function JoinWith(xs: seq<string>, sep: string): string {
    if |xs| == 0 then ""
    else if |xs| == 1 then xs[0]
    else xs[0] + sep + JoinWith(xs[1..], sep)
  }

  function Concat(xs: seq<string>): string {
    if xs == [] then "" else xs[0] + Concat(xs[1..])
  }

  /** `s.split(c)` */
  function Split(s: string, c: char): (r: seq<string>)
    ensures |r| >= 1
    decreases |s|
  {
    var k := IndexOf(s, c);
    if k == |s| then [s] else [s[..k]] + Split(s[k + 1..], c)
  }

  /** `s.split(c)[-1]` */
  function LastPiece(s: string, c: char): string {
    var parts := Split(s, c);
    parts[|parts| - 1]
  }

  function CountChar(s: string, c: char): nat {
    if s == [] then 0 else (if s[0] == c then 1 else 0) + CountChar(s[1..], c)
  }

  /** Python's `<` on strings: code point by code point, a proper prefix first. */
  predicate StrLess(a: string, b: string) {
    |b| > 0 && (|a| == 0 || a[0] < b[0] || (a[0] == b[0] && StrLess(a[1..], b[1..])))
  }

  predicate IsLeast(m: string, names: set<string>) {
    m in names && forall x | x in names && x != m :: StrLess(m, x)
  }

  /** `min(names)` */
  function Least(names: set<string>): (m: string)
    requires names != {}
    ensures IsLeast(m, names)
  {
    LeastExists(names);
    LeastUnique(names);
    var m :| IsLeast(m, names);
    m
  }

  /** `sorted(names)` */
  function SortedNames(names: set<string>): (r: seq<string>)
    ensures |r| == |names|
    ensures forall x :: x in r <==> x in names
    ensures forall i, j | 0 <= i < j < |r| :: StrLess(r[i], r[j])
    decreases |names|
  {
    if names == {} then []
    else
      var m := Least(names);
      var rest := SortedNames(names - {m});
      assert forall i | 0 <= i < |rest| :: rest[i] in names - {m};
      [m] + rest
  }

  // ---------------------------------------------------------------------------
  // Lemmas

  lemma {:induction false} StripLeftExact(w: string, x: string)
    requires AllSpace(w)
    requires x == [] || !IsSpace(x[0])
    ensures StripLeft(w + x) == x
  {
    var s := w + x;
    var j := SpaceRunEnd(s, 0);
    assert forall k | 0 <= k < |w| :: s[k] == w[k];
    assert j < |s| ==> j >= |w|;
    assert |w| < |s| ==> s[|w|] == x[0];
  }

  lemma {:induction false} StripRightExact(x: string, w: string)
    requires AllSpace(w)
    requires x == [] || !IsSpace(x[|x| - 1])
    ensures StripRight(x + w) == x
  {
    if w != [] {
      var w' := w[..|w| - 1];
      assert (x + w)[..|x + w| - 1] == x + w';
      StripRightExact(x, w');
    }
  }

  /** `strip` removes exactly the surrounding whitespace and nothing inside. */
  lemma StripExact(w1: string, x: string, w2: string)
    requires AllSpace(w1) && AllSpace(w2) && Trimmed(x)
    ensures Strip(w1 + x + w2) == x
  {
    if x == [] {
      assert w1 + x + w2 == w1 + w2;
      StripLeftExact(w1 + w2, "");
      assert w1 + w2 + "" == w1 + w2;
    } else {
      assert w1 + x + w2 == w1 + (x + w2);
      StripLeftExact(w1, x + w2);
      StripRightExact(x, w2);
    }
  }

  lemma StripTrimmed(x: string)
    requires Trimmed(x)
    ensures Strip(x) == x
  {
    StripExact("", x, "");
    assert "" + x + "" == x;
  }

  /** Whitespace in front of a text does not change what `strip` returns. */
  lemma StripSpacePrefix(w: string, s: string)
    requires AllSpace(w)
    ensures Strip(w + s) == Strip(s)
  {
    var l := StripLeft(s);
    var w' := s[..|s| - |l|];
    assert s == w' + l;
    assert w + s == (w + w') + l;
    StripLeftExact(w + w', l);
  }

  lemma NoCarriageReturn(s: string)
    requires '\r' !in s
    ensures UniversalNewlines(s) == s
  {
  }

  /** A line without an inner newline, followed by more text, is read as one line. */
  lemma {:induction false} SplitLinesCons(x: string, rest: string)
    requires '\n' !in x
    ensures SplitLines(x + "\n" + rest) == [x + "\n"] + SplitLines(rest)
  {
    var s := x + "\n" + rest;
    var k := IndexOf(s, '\n');
    assert forall i | 0 <= i < |x| :: s[i] == x[i];
    assert s[|x|] == '\n';
    assert k == |x|;
    assert s[..k + 1] == x + "\n";
    assert s[k + 1..] == rest;
  }

  /** `readlines` loses nothing: its lines concatenate back to the text. */
  lemma {:induction false} SplitLinesConcat(s: string)
    ensures Concat(SplitLines(s)) == s
    decreases |s|
  {
    if s != [] {
      var k := IndexOf(s, '\n');
      if k == |s| {
        assert Concat([s]) == s + Concat([]);
      } else {
        SplitLinesConcat(s[k + 1..]);
        var r := [s[..k + 1]] + SplitLines(s[k + 1..]);
        assert r[1..] == SplitLines(s[k + 1..]);
        assert s == s[..k + 1] + s[k + 1..];
      }
    }
  }

  /** Splitting on `c` and joining with `c` gives the text back. */
  lemma {:induction false} SplitJoin(s: string, c: char)
    ensures JoinWith(Split(s, c), [c]) == s
    decreases |s|
  {
    var k := IndexOf(s, c);
    if k < |s| {
      SplitJoin(s[k + 1..], c);
      var r := Split(s, c);
      assert r[1..] == Split(s[k + 1..], c);
      assert s == s[..k] + [c] + s[k + 1..];
    } else {
      assert s[..k] == s;
    }
  }

  lemma {:induction false} SplitCount(s: string, c: char)
    ensures |Split(s, c)| == CountChar(s, c) + 1
    decreases |s|
  {
    var k := IndexOf(s, c);
    CountPrefix(s, c, k);
    if k < |s| {
      SplitCount(s[k + 1..], c);
    }
  }

  lemma {:induction false} CountPrefix(s: string, c: char, k: nat)
    requires k <= |s| && forall i | 0 <= i < k :: s[i] != c
    ensures k < |s| && s[k] == c ==> CountChar(s, c) == 1 + CountChar(s[k + 1..], c)
    ensures k == |s| ==> CountChar(s, c) == 0
    decreases k
  {
    if k > 0 {
      CountPrefix(s[1..], c, k - 1);
      assert s[1..][k - 1..] == s[k..];
      if k < |s| {
        assert s[1..][k..] == s[k + 1..];
      }
    }
  }

  lemma {:induction false} CountZero(s: string, c: char)
    ensures CountChar(s, c) == 0 <==> c !in s
  {
    if s != [] {
      CountZero(s[1..], c);
      assert s == [s[0]] + s[1..];
    }
  }


  /** The last piece of a split is a `c`-free suffix, preceded by `c` unless it is everything. */
  lemma {:induction false} LastPieceSuffix(s: string, c: char)
    ensures var v := LastPiece(s, c);
      && c !in v
      && EndsWith(s, v)
      && (|v| < |s| ==> s[|s| - |v| - 1] == c)
    decreases |s|
  {
    var k := IndexOf(s, c);
    if k < |s| {
      var rest := s[k + 1..];
      LastPieceSuffix(rest, c);
      LastPieceAfter(s, c, k);
      SuffixOfRest(s, c, k, rest, LastPiece(rest, c));
    } else {
      assert s[..k] == s;
    }
  }

  /** Past the first `c`, the last piece is that of the rest. */
  lemma LastPieceAfter(s: string, c: char, k: nat)
    requires k == IndexOf(s, c) && k < |s|
    ensures LastPiece(s, c) == LastPiece(s[k + 1..], c)
  {
    var r' := Split(s[k + 1..], c);
    assert Split(s, c) == [s[..k]] + r';
  }

  lemma SuffixOfRest(s: string, c: char, k: nat, rest: string, v: string)
    requires k < |s| && s[k] == c && rest == s[k + 1..]
    requires EndsWith(rest, v) && (|v| < |rest| ==> rest[|rest| - |v| - 1] == c)
    ensures EndsWith(s, v) && (|v| < |s| ==> s[|s| - |v| - 1] == c)
  {
    assert |s| == k + 1 + |rest|;
    forall i | 0 <= i < |v| ensures s[|s| - |v| + i] == v[i] {
      assert s[|s| - |v| + i] == rest[|rest| - |v| + i];
      assert rest[|rest| - |v|..][i] == v[i];
    }
    assert s[|s| - |v|..] == v;
    if |v| < |rest| {
      assert s[|s| - |v| - 1] == rest[|rest| - |v| - 1];
    }
  }

  lemma {:induction false} StrLessIrreflexive(a: string)
    ensures !StrLess(a, a)
    decreases |a|
  {
    if |a| > 0 {
      StrLessIrreflexive(a[1..]);
    }
  }

  lemma {:induction false} StrLessTransitive(a: string, b: string, c: string)
    requires StrLess(a, b) && StrLess(b, c)
    ensures StrLess(a, c)
    decreases |a|
  {
    if |a| > 0 && a[0] == b[0] && b[0] == c[0] {
      StrLessTransitive(a[1..], b[1..], c[1..]);
    }
  }

  lemma {:induction false} StrLessTotal(a: string, b: string)
    requires a != b
    ensures StrLess(a, b) || StrLess(b, a)
    decreases |a|
  {
    if |a| > 0 && |b| > 0 && a[0] == b[0] {
      assert a == [a[0]] + a[1..] && b == [b[0]] + b[1..];
      StrLessTotal(a[1..], b[1..]);
    }
  }

  lemma {:induction false} LeastExists(names: set<string>)
    requires names != {}
    ensures exists m :: IsLeast(m, names)
    decreases |names|
  {
    var x :| x in names;
    var rest := names - {x};
    if rest == {} {
      assert forall y | y in names :: y in rest || y == x;
      assert IsLeast(x, names);
    } else {
      LeastExists(rest);
      var m :| IsLeast(m, rest);
      if StrLess(m, x) {
        assert IsLeast(m, names);
      } else {
        StrLessTotal(m, x);
        forall y | y in names && y != x ensures StrLess(x, y) {
          if y != m {
            StrLessTransitive(x, m, y);
          }
        }
        assert IsLeast(x, names);
      }
    }
  }

  lemma LeastUnique(names: set<string>)
    ensures forall a, b | IsLeast(a, names) && IsLeast(b, names) :: a == b
  {
    forall a, b | IsLeast(a, names) && IsLeast(b, names) ensures a == b {
      if a != b {
        StrLessTransitive(a, b, a);
        StrLessIrreflexive(a);
      }
    }
  }

  /** `Strip(s)` is a slice of `s`. */
  lemma StripSlice(s: string)
    ensures forall c | c in Strip(s) :: c in s
  {
    var l := StripLeft(s);
    var r := StripRight(l);
    forall c | c in r ensures c in s {
      var i :| 0 <= i < |r| && r[i] == c;
      assert r[i] == l[i] == s[|s| - |l| + i];
    }
  }

  /** Trailing whitespace makes no difference to `strip`. */
  lemma StripTrailingSpace(s: string, c: char)
    requires IsSpace(c)
    ensures Strip(s + [c]) == Strip(s)
  {
    var l := StripLeft(s);
    var w := s[..|s| - |l|];
    assert s == w + l;
    if l == [] {
      assert AllSpace(s + [c]);
      StripLeftExact(s + [c], "");
      assert s + [c] + "" == s + [c];
    } else {
      assert s + [c] == w + (l + [c]);
      StripLeftExact(w, l + [c]);
      assert (l + [c])[..|l + [c]| - 1] == l;
    }
  }
}
