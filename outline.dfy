/**
 * The outline line format of `content.md`, as `script_create_structure.py`
 * recognises it with `re.match(r'^(\d+(\.\d+)*)\s+(.+)', line)`: a dotted
 * number, at least one whitespace character and a title. Lines keep the
 * `"\n"` that `readlines` leaves on them, and `.` in the title part does not
 * match a newline.
 */
module Outline {
  import opened Wrappers
  import opened Text

  /** A matched outline line: group 1 (the number) and `group(3).strip()` (the title). */
  datatype Heading = Heading(number: string, title: string)

  /** End of the longest run of digits starting at `i`. */
  function DigitRunEnd(s: string, i: nat): (j: nat)
    requires i <= |s|
    ensures i <= j <= |s|
    ensures forall k | i <= k < j :: IsDigit(s[k])
    ensures j == |s| || !IsDigit(s[j])
    decreases |s| - i
  {
    if i < |s| && IsDigit(s[i]) then DigitRunEnd(s, i + 1) else i
  }

  /** Having matched `\d+` up to `j`, take as many further `\.\d+` groups as there are. */
  function NumberEnd(s: string, j: nat): (k: nat)
    requires 0 < j <= |s|
    ensures j <= k <= |s|
    decreases |s| - j
  {
    if j + 1 < |s| && s[j] == '.' && IsDigit(s[j + 1]) then NumberEnd(s, DigitRunEnd(s, j + 1)) else j
  }

  /** Length of the text `^(\d+(\.\d+)*)` matches at the start of `s`; 0 when it does not match. */
  function NumberPrefix(s: string): (n: nat)
    ensures n <= |s|
    ensures n == 0 <==> (s == [] || !IsDigit(s[0]))
  {
    if |s| > 0 && IsDigit(s[0]) then NumberEnd(s, DigitRunEnd(s, 0)) else 0
  }

  /** The strings `\d+(\.\d+)*` describes. */
  ghost predicate IsNumber(t: string) {
    && |t| > 0 && IsDigit(t[0]) && IsDigit(t[|t| - 1])
    && (forall i | 0 <= i < |t| :: IsDigit(t[i]) || t[i] == '.')
    && (forall i | 0 <= i < |t| - 1 :: t[i] == '.' ==> IsDigit(t[i + 1]))
  }

  /**
   * `re.match(r'^(\d+(\.\d+)*)\s+(.+)', line)`. The number is the longest
   * dotted-number prefix; `\s+` is greedy and gives back characters only when
   * what follows it is all whitespace, in which case `(.+)` holds whitespace
   * and the stripped title is empty.
   */
  function Match(line: string): Option<Heading> {
    var n := NumberPrefix(line);
    if n == 0 then None
    else
      var m := SpaceRunEnd(line, n);
      if m == n then None
      else if m < |line| then
        Some(Heading(line[..n], Strip(RestOfLine(line, m))))
      else if exists k | n < k < m :: line[k] != '\n' then
        Some(Heading(line[..n], ""))
      else
        None
  }

  /** What `.` can match from position `m`: the text up to the next newline. */
  function RestOfLine(s: string, m: nat): string
    requires m <= |s|
  {
    s[m..m + IndexOf(s[m..], '\n')]
  }

  /** `len(number.split('.'))`: the nesting level of an outline number. */
  function Level(number: string): nat {
    |Split(number, '.')|
  }

  /** `number.split('.')[-1]`: the text written as `nav_order`. */
  function NavOrder(number: string): string {
    LastPiece(number, '.')
  }

  // ---------------------------------------------------------------------------
  // The dotted number

  lemma {:induction false} NumberEndShape(s: string, j: nat)
    requires 0 < j <= |s| && IsNumber(s[..j])
    requires j == |s| || !IsDigit(s[j])
    ensures var k := NumberEnd(s, j);
      IsNumber(s[..k]) && (k == |s| || (!IsDigit(s[k]) && !(s[k] == '.' && k + 1 < |s| && IsDigit(s[k + 1]))))
    decreases |s| - j
  {
    if j + 1 < |s| && s[j] == '.' && IsDigit(s[j + 1]) {
      var j' := DigitRunEnd(s, j + 1);
      var t := s[..j'];
      assert forall i | 0 <= i < j :: t[i] == s[..j][i];
      assert IsNumber(t);
      NumberEndShape(s, j');
    }
  }

  /** What `NumberPrefix` measures is a dotted number, and it cannot be extended. */
  lemma NumberPrefixShape(s: string)
    requires NumberPrefix(s) > 0
    ensures var n := NumberPrefix(s);
      IsNumber(s[..n]) && (n == |s| || (!IsDigit(s[n]) && !(s[n] == '.' && n + 1 < |s| && IsDigit(s[n + 1]))))
  {
    var j := DigitRunEnd(s, 0);
    assert IsNumber(s[..j]);
    NumberEndShape(s, j);
  }

  lemma {:induction false} NumberEndUnique(s: string, j: nat, m: nat)
    requires 0 < j <= m <= |s| && IsNumber(s[..m])
    requires IsDigit(s[j - 1]) && (j == |s| || !IsDigit(s[j]))
    requires m == |s| || (!IsDigit(s[m]) && s[m] != '.')
    ensures NumberEnd(s, j) == m
    decreases |s| - j
  {
    if j < m {
      assert s[j] == s[..m][j];
      assert s[j] == '.';
      assert s[m - 1] == s[..m][m - 1];
      assert j < m - 1;
      assert IsDigit(s[..m][j + 1]);
      var j' := DigitRunEnd(s, j + 1);
      assert j' <= m;
      NumberEndUnique(s, j', m);
    }
  }

  /**
   * A dotted number followed by a character that is neither a digit nor `.`
   * is exactly what `NumberPrefix` finds: the regex has no other way to
   * choose its group 1.
   */
  lemma NumberPrefixUnique(s: string, m: nat)
    requires m <= |s| && IsNumber(s[..m])
    requires m == |s| || (!IsDigit(s[m]) && s[m] != '.')
    ensures NumberPrefix(s) == m
  {
    assert s[0] == s[..m][0];
    var j := DigitRunEnd(s, 0);
    assert j <= m;
    assert j > 0;
    NumberEndUnique(s, j, m);
  }

  // ---------------------------------------------------------------------------
  // The outline line regex

  /**
   * One way for `^(\d+(\.\d+)*)\s+(.+)` to match `line`: group 1 is
   * `line[..n]`, `\s+` covers `line[n..k]` and `(.+)` covers `line[k..e]`.
   */
  ghost predicate Fits(line: string, n: nat, k: nat, e: nat) {
    && 0 < n < k < e <= |line|
    && IsNumber(line[..n])
    && (forall i | n <= i < k :: IsSpace(line[i]))
    && (forall i | k <= i < e :: line[i] != '\n')
  }

  /** `(.+)` is greedy: the title run stops only at a newline or at the end of the line. */
  ghost predicate RunEnds(line: string, e: nat) {
    e == |line| || (e < |line| && line[e] == '\n')
  }

  /** Whenever `Match` accepts a line, the regex matches it that way. */
  lemma MatchSound(line: string)
    requires Match(line).Some?
    ensures var h := Match(line).value;
      && h.number == line[..|h.number|]
      && exists k: nat, e: nat :: Fits(line, |h.number|, k, e) && RunEnds(line, e) && h.title == Strip(line[k..e])
  {
    var n := NumberPrefix(line);
    var m := SpaceRunEnd(line, n);
    NumberPrefixShape(line);
    if m < |line| {
      var e := TitleRun(line, n, m);
    } else {
      var k :| n < k < m && line[k] != '\n';
      var e := BlankTitleRun(line, n, k);
    }
  }

  /** The run `.` matches from `k`: up to the next newline, or to the end of the line. */
  lemma LineRun(line: string, k: nat) returns (e: nat)
    requires k < |line| && line[k] != '\n'
    ensures e == k + IndexOf(line[k..], '\n')
    ensures k < e <= |line| && RunEnds(line, e)
    ensures forall i | k <= i < e :: line[i] != '\n'
  {
    e := k + IndexOf(line[k..], '\n');
    assert line[k..][0] == line[k];
    forall i | k <= i < e ensures line[i] != '\n' {
      assert line[i] == line[k..][i - k];
    }
    if e < |line| {
      assert line[e] == line[k..][e - k];
    }
  }

  /** A title that does not start with whitespace runs to the end of its line. */
  lemma TitleRun(line: string, n: nat, m: nat) returns (e: nat)
    requires 0 < n < m < |line| && IsNumber(line[..n])
    requires m == SpaceRunEnd(line, n)
    ensures Fits(line, n, m, e) && RunEnds(line, e) && Strip(line[m..e]) == Strip(RestOfLine(line, m))
  {
    assert line[m] != '\n';
    e := LineRun(line, m);
    assert RestOfLine(line, m) == line[m..e];
  }

  /** After a number followed by whitespace only, the title run is whitespace and strips to nothing. */
  lemma BlankTitleRun(line: string, n: nat, k: nat) returns (e: nat)
    requires 0 < n < k < |line| && IsNumber(line[..n])
    requires forall i | n <= i < |line| :: IsSpace(line[i])
    requires line[k] != '\n'
    ensures Fits(line, n, k, e) && RunEnds(line, e) && Strip(line[k..e]) == ""
  {
    e := LineRun(line, k);
    AllSpaceStrips(line, k, e);
  }

  lemma AllSpaceStrips(line: string, k: nat, e: nat)
    requires k <= e <= |line|
    requires forall i | k <= i < e :: IsSpace(line[i])
    ensures Strip(line[k..e]) == ""
  {
    var w := line[k..e];
    assert AllSpace(w) by {
      forall i | 0 <= i < |w| ensures IsSpace(w[i]) { assert w[i] == line[k + i]; }
    }
    StripExact(w, "", "");
    assert w + "" + "" == w;
  }

  /**
   * Whenever the regex can match a line, `Match` accepts it, with the same
   * number; on a line with no newline before its last character (what
   * `readlines` yields), also with the title group 3 strips to.
   */
  lemma MatchComplete(line: string, n: nat, k: nat, e: nat)
    requires Fits(line, n, k, e)
    ensures Match(line).Some? && Match(line).value.number == line[..n]
    ensures RunEnds(line, e) && (forall i | 0 <= i < |line| - 1 :: line[i] != '\n') ==>
      Match(line).value.title == Strip(line[k..e])
  {
    NumberPrefixUnique(line, n);
    var m := SpaceRunEnd(line, n);
    assert m >= k;
    if m == |line| {
      assert n < k < m && line[k] != '\n';
      AllSpaceStrips(line, k, e);
    } else if RunEnds(line, e) && (forall i | 0 <= i < |line| - 1 :: line[i] != '\n') {
      assert line[m] != '\n';
      var e' := LineRun(line, m);
      assert RestOfLine(line, m) == line[m..e'];
      assert e >= m;
      assert e' == e;
      assert line[k..e] == line[k..m] + line[m..e];
      assert AllSpace(line[k..m]) by {
        forall i | 0 <= i < m - k ensures IsSpace(line[k..m][i]) { assert line[k..m][i] == line[k + i]; }
      }
      StripSpacePrefix(line[k..m], line[m..e]);
    }
  }

  /** A matched number consists of digits and dots only. */
  lemma MatchNumber(line: string)
    requires Match(line).Some?
    ensures forall i | 0 <= i < |Match(line).value.number| :: IsDigit(Match(line).value.number[i]) || Match(line).value.number[i] == '.'
  {
    NumberPrefixShape(line);
  }

  /** The title is stripped and lies on one line. */
  lemma MatchTitle(line: string)
    requires Match(line).Some?
    ensures Trimmed(Match(line).value.title)
    ensures '\n' !in Match(line).value.title
  {
    var n := NumberPrefix(line);
    var m := SpaceRunEnd(line, n);
    if m < |line| {
      OneLine(line, m);
    }
  }

  /** What `.` matches holds no newline, and neither does its stripped form. */
  lemma OneLine(line: string, m: nat)
    requires m <= |line|
    ensures '\n' !in RestOfLine(line, m) && '\n' !in Strip(RestOfLine(line, m))
  {
    var piece := RestOfLine(line, m);
    forall i | 0 <= i < |piece| ensures piece[i] != '\n' {
      assert piece[i] == line[m..][i];
    }
    StripSlice(piece);
  }

  // ---------------------------------------------------------------------------
  // Level and nav_order

  /** A number is top-level exactly when it contains no `.`. */
  lemma LevelOneIffNoDot(number: string)
    ensures Level(number) == 1 <==> '.' !in number
  {
    SplitCount(number, '.');
    CountZero(number, '.');
  }

  /** `nav_order` is the last dot component: a dot-free suffix preceded by `.` unless it is everything. */
  lemma NavOrderSuffix(number: string)
    ensures var v := NavOrder(number);
      && '.' !in v
      && EndsWith(number, v)
      && (|v| < |number| ==> number[|number| - |v| - 1] == '.')
  {
    LastPieceSuffix(number, '.');
  }
}
