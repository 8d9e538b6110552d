/**
 * The page file format of `generate_content.py`: a front-matter block between
 * `---` lines followed by the page body. `update_file_content` writes it and
 * `get_file_data` takes it apart with
 * `re.search(r'^---\s*\n(.*?)\n---\s*\n(.*)', content, re.DOTALL)`.
 * The YAML inside the block is opaque text here.
 */
module PageFormat {
  import opened Wrappers
  import opened Text

  /** `f"---\n{fm_string}---\n{new_content}"` */
  function Serialize(fmText: string, content: string): string {
    "---\n" + fmText + "---\n" + content
  }

  /** The position of the last newline in `t[lo..hi]`. */
  function LastNewline(t: string, lo: nat, hi: nat): (r: Option<nat>)
    requires lo <= hi <= |t|
    ensures r.Some? ==> lo <= r.value < hi && t[r.value] == '\n'
    ensures r.None? ==> forall q | lo <= q < hi :: t[q] != '\n'
    decreases hi - lo
  {
    if hi == lo then None
    else if t[hi - 1] == '\n' then Some(hi - 1)
    else LastNewline(t, lo, hi - 1)
  }

  /**
   * Whether `\n---\s*\n` matches at `b`, and if so where group 2 starts: the
   * greedy `\s*` stops at the last newline of the whitespace run after `---`.
   */
  function ClosingAt(t: string, b: nat): (r: Option<nat>)
    requires b <= |t|
    ensures r.Some? ==> b + 4 < r.value <= |t|
  {
    if b + 4 <= |t| && t[b..b + 4] == "\n---" then
      match LastNewline(t, b + 4, SpaceRunEnd(t, b + 4))
      case Some(q) => Some(q + 1)
      case None => None
    else None
  }

  /** The lazy `(.*?)` starting at `a`: the first `b >= a` where the closing line matches. */
  function CloseFrom(t: string, a: nat, b: nat): (r: Option<(string, string)>)
    requires a <= b <= |t|
    ensures r.Some? ==> Trimmed(r.value.1)
    decreases |t| - b
  {
    match ClosingAt(t, b)
    case Some(c) => Some((t[a..b], Strip(t[c..])))
    case None => if b < |t| then CloseFrom(t, a, b + 1) else None
  }

  /**
   * The opening `---\s*\n`: the candidates for its newline are the newlines
   * of the whitespace run after `---` in `t[3..k]`, tried last first as the
   * greedy `\s*` gives characters back.
   */
  function OpenFrom(t: string, k: nat): (r: Option<(string, string)>)
    requires 3 <= k <= |t|
    ensures r.Some? ==> Trimmed(r.value.1)
    decreases k
  {
    if k == 3 then None
    else if t[k - 1] == '\n' then
      var r := CloseFrom(t, k, k);
      if r.Some? then r else OpenFrom(t, k - 1)
    else OpenFrom(t, k - 1)
  }

  /**
   * `get_file_data`'s split of a page into `(match.group(1), match.group(2).strip())`,
   * or `None` when the pattern does not match.
   */
  function SplitFrontMatter(t: string): (r: Option<(string, string)>)
    ensures r.Some? ==> Trimmed(r.value.1)
  {
    if StartsWith(t, "---") then OpenFrom(t, SpaceRunEnd(t, 3)) else None
  }

  /** A line starting with `---` begins right after position `i`. */
  predicate DelimiterAt(s: string, i: nat)
    requires i + 4 <= |s|
  {
    s[i..i + 4] == "\n---"
  }

  /** No line of the text (after its first) starts with `---`. */
  predicate NoDelimiter(s: string) {
    forall i: nat | i + 4 <= |s| :: !DelimiterAt(s, i)
  }

  // ---------------------------------------------------------------------------

  lemma {:induction false} CloseFromSkip(t: string, a: nat, b: nat, b': nat)
    requires a <= b <= b' <= |t|
    requires forall x | b <= x < b' :: ClosingAt(t, x).None?
    ensures CloseFrom(t, a, b) == CloseFrom(t, a, b')
    decreases b' - b
  {
    if b < b' {
      CloseFromSkip(t, a, b + 1, b');
    }
  }

  /** Inside the serialized front matter no closing line matches. */
  lemma NoClosingInside(fm: string, content: string, x: nat)
    requires |fm| > 0 && fm[|fm| - 1] == '\n' && NoDelimiter(fm)
    requires 4 <= x < |fm| + 3
    ensures ClosingAt(Serialize(fm, content), x).None?
  {
    var t := Serialize(fm, content);
    var L := |fm|;
    if x <= L {
      assert !DelimiterAt(fm, x - 4);
      assert t[x..x + 4] == fm[x - 4..x];
    } else {
      assert t[L + 3] == fm[L - 1];
      assert t[x..x + 4][L + 3 - x] == '\n';
    }
  }

  /** `\n---\s*\n` matches at `b` when a newline follows the `---` directly. */
  lemma ClosingMatches(t: string, b: nat) returns (c: nat)
    requires b + 4 < |t| && t[b..b + 4] == "\n---" && t[b + 4] == '\n'
    ensures b + 5 <= c <= |t|
    ensures ClosingAt(t, b) == Some(c)
    ensures forall k | b + 5 <= k < c :: IsSpace(t[k])
  {
    var e := SpaceRunEnd(t, b + 4);
    var r := LastNewline(t, b + 4, e);
    c := r.value + 1;
  }

  lemma StripAfterSpace(t: string, i: nat, c: nat)
    requires i <= c <= |t|
    requires forall k | i <= k < c :: IsSpace(t[k])
    ensures Strip(t[c..]) == Strip(t[i..])
  {
    var w := t[i..c];
    assert AllSpace(w) by {
      forall j | 0 <= j < |w| ensures IsSpace(w[j]) { assert w[j] == t[i + j]; }
    }
    assert t[i..] == w + t[c..];
    StripSpacePrefix(w, t[c..]);
  }

  /** A `---` line followed by a newline closes the block; group 2 strips as the text after that newline does. */
  lemma ClosingLine(t: string, b: nat) returns (c: nat)
    requires b + 4 < |t| && t[b..b + 4] == "\n---" && t[b + 4] == '\n'
    ensures b + 5 <= c <= |t|
    ensures ClosingAt(t, b) == Some(c)
    ensures Strip(t[c..]) == Strip(t[b + 5..])
  {
    c := ClosingMatches(t, b);
    StripAfterSpace(t, b + 5, c);
  }

  /** The closing line written after the front matter matches, and what follows strips to the stripped content. */
  lemma ClosingAfter(fm: string, content: string) returns (c: nat)
    requires |fm| > 0 && fm[|fm| - 1] == '\n'
    ensures c <= |Serialize(fm, content)|
    ensures ClosingAt(Serialize(fm, content), |fm| + 3) == Some(c)
    ensures Strip(Serialize(fm, content)[c..]) == Strip(content)
  {
    var t := Serialize(fm, content);
    var L := |fm|;
    assert t[L + 3..L + 7] == "\n---";
    assert t[L + 7] == '\n';
    assert t[L + 8..] == content;
    c := ClosingLine(t, L + 3);
  }

  /** The opening `---` line of a serialized page ends at position 4. */
  lemma OpeningLine(fm: string, content: string)
    requires |fm| > 0 && !IsSpace(fm[0])
    ensures StartsWith(Serialize(fm, content), "---")
    ensures SpaceRunEnd(Serialize(fm, content), 3) == 4
    ensures SplitFrontMatter(Serialize(fm, content)) == CloseFrom(Serialize(fm, content), 4, 4)
  {
    var t := Serialize(fm, content);
    assert t[..3] == "---";
    assert t[3] == '\n' && t[4] == fm[0];
  }

  /**
   * Reading back what `update_file_content` wrote: when the dumped front
   * matter is non-empty, starts with a non-space, ends with a newline and has
   * no line starting with `---`, the reader returns it (without its final
   * newline) and the stripped content.
   */
  lemma RoundTrip(fm: string, content: string)
    requires |fm| > 0 && !IsSpace(fm[0]) && fm[|fm| - 1] == '\n'
    requires NoDelimiter(fm)
    ensures SplitFrontMatter(Serialize(fm, content)) == Some((fm[..|fm| - 1], Strip(content)))
  {
    var t := Serialize(fm, content);
    var L := |fm|;
    OpeningLine(fm, content);
    forall x | 4 <= x < L + 3 ensures ClosingAt(t, x).None? {
      NoClosingInside(fm, content, x);
    }
    CloseFromSkip(t, 4, 4, L + 3);
    var c := ClosingAfter(fm, content);
    assert t[4..L + 3] == fm[..L - 1];
    assert CloseFrom(t, 4, L + 3) == Some((fm[..L - 1], Strip(content)));
  }

  /** Lines that end in a newline, hold no other and do not start with `-` concatenate to a text with no `---` line. */
  lemma {:induction false} NoDelimiterConcat(ls: seq<string>)
    requires forall j | 0 <= j < |ls| :: |ls[j]| >= 2 && ls[j][|ls[j]| - 1] == '\n' && ls[j][0] != '-'
    requires forall j | 0 <= j < |ls| :: '\n' !in ls[j][..|ls[j]| - 1]
    ensures NoDelimiter(Concat(ls))
  {
    if ls != [] {
      var l := ls[0];
      var rest := Concat(ls[1..]);
      NoDelimiterConcat(ls[1..]);
      var x := Concat(ls);
      assert x == l + rest;
      forall i: nat | i + 4 <= |x| ensures !DelimiterAt(x, i) {
        if i < |l| - 1 {
          assert x[i] == l[..|l| - 1][i];
          assert x[i..i + 4][0] != '\n';
        } else if i == |l| - 1 {
          assert |ls| > 1;
          assert rest == ls[1] + Concat(ls[2..]);
          assert x[i..i + 4][1] == ls[1][0];
        } else {
          assert !DelimiterAt(rest, i - |l|);
          assert x[i..i + 4] == rest[i - |l|..i - |l| + 4];
        }
      }
    }
  }
}
