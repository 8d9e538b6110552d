/**
 * The two bookkeeping files of `generate_content.py`: the processing list
 * `files_to_process.txt`, one page path per line with blank lines and `#`
 * comments ignored, which the driver rewrites after every item; and the
 * append-only fail log `fail_process.txt`.
 */
module QueueFiles {
  import opened Wrappers
  import opened Text
  import opened FileSystem

  const ListFile: Path := ["files_to_process.txt"]
  const FailLog: Path := ["fail_process.txt"]

  /** A line the reader keeps, once stripped: not empty and not a `#` comment. */
  predicate IsEntry(x: string) {
    x != "" && !StartsWith(x, "#")
  }

  /** `[line.strip() for line in lines if line.strip() and not line.strip().startswith('#')]` */
  function Entries(lines: seq<string>): (r: seq<string>)
    ensures |r| <= |lines|
    ensures forall i | 0 <= i < |r| :: IsEntry(r[i]) && Trimmed(r[i])
  {
    if lines == [] then [] else EntryOf(lines[0]) + Entries(lines[1..])
  }

  /** What one line contributes to the list. */
  function EntryOf(line: string): (r: seq<string>)
    ensures |r| <= 1
    ensures forall i | 0 <= i < |r| :: IsEntry(r[i]) && Trimmed(r[i])
  {
    var x := Strip(line);
    if IsEntry(x) then [x] else []
  }

  /** What `update_processing_list` writes: `"\n".join(xs) + "\n"`, or nothing for an empty list. */
  function FormatList(xs: seq<string>): string {
    if xs == [] then "" else JoinWith(xs, "\n") + "\n"
  }

  /** An item that reads back as itself: a stripped entry on one line. */
  predicate Storable(x: string) {
    IsEntry(x) && Trimmed(x) && '\n' !in x && '\r' !in x
  }

  /**
   * `get_files_to_process` on the tree: `[]` when the list file does not
   * exist, `None` when opening it raises (it is a directory), and otherwise
   * its entries.
   */
  function ReadList(fs: FS): (r: Option<seq<string>>)
    ensures r.Some? && ListFile in fs && fs[ListFile].File? ==> r.value == Entries(ReadLines(fs[ListFile].text))
    ensures r.Some? && ListFile !in fs ==> r.value == []
    ensures r.None? <==> ListFile in fs && fs[ListFile].Dir?
  {
    if ListFile !in fs then Some([])
    else match fs[ListFile]
      case Dir => None
      case File(text) => Some(Entries(ReadLines(text)))
  }

  /** `update_processing_list(xs)`; `None` when the list path is a directory, where `open(..., 'w')` raises. */
  function WriteList(fs: FS, xs: seq<string>): (r: Option<FS>)
    ensures r.Some? <==> !(ListFile in fs && fs[ListFile].Dir?)
    ensures r.Some? ==> r.value == fs[ListFile := File(FormatList(xs))]
  {
    if ListFile in fs && fs[ListFile].Dir? then None else Some(fs[ListFile := File(FormatList(xs))])
  }

  /** `log_failed_file(item)`: appends `item` and a newline, creating the log if needed; `None` when the log path is a directory. */
  function LogFailed(fs: FS, item: string): (r: Option<FS>)
    ensures r.Some? <==> !(FailLog in fs && fs[FailLog].Dir?)
    ensures r.Some? ==> r.value == fs[FailLog := File(LogText(fs) + item + "\n")]
  {
    if FailLog !in fs then
      assert LogText(fs) + item + "\n" == item + "\n";
      Some(fs[FailLog := File(item + "\n")])
    else match fs[FailLog]
      case Dir => None
      case File(text) => Some(fs[FailLog := File(text + item + "\n")])
  }

  /** The fail log's text, empty when there is none yet. */
  function LogText(fs: FS): string {
    if FailLog in fs && fs[FailLog].File? then fs[FailLog].text else ""
  }

  // ---------------------------------------------------------------------------

  /** The items, each with its line end. */
  function Lined(xs: seq<string>): (r: seq<string>)
    ensures |r| == |xs|
  {
    if xs == [] then [] else [xs[0] + "\n"] + Lined(xs[1..])
  }

  lemma FormatCons(x: string, rest: seq<string>)
    ensures FormatList([x] + rest) == x + "\n" + FormatList(rest)
  {
    if rest != [] {
      assert ([x] + rest)[1..] == rest;
    }
  }

  /** The list file `update_processing_list` writes has one line per item. */
  lemma {:induction false} FormatLines(xs: seq<string>)
    requires forall i | 0 <= i < |xs| :: '\n' !in xs[i] && '\r' !in xs[i]
    ensures '\r' !in FormatList(xs)
    ensures SplitLines(FormatList(xs)) == Lined(xs)
  {
    if xs != [] {
      var rest := xs[1..];
      assert xs == [xs[0]] + rest;
      FormatCons(xs[0], rest);
      FormatLines(rest);
      SplitLinesCons(xs[0], FormatList(rest));
    }
  }

  lemma {:induction false} EntriesOfLines(xs: seq<string>)
    requires forall i | 0 <= i < |xs| :: Storable(xs[i])
    ensures Entries(Lined(xs)) == xs
  {
    if xs != [] {
      var rest := xs[1..];
      assert forall i | 0 <= i < |rest| :: Storable(rest[i]) by {
        forall i | 0 <= i < |rest| ensures Storable(rest[i]) {
          assert rest[i] == xs[i + 1];
        }
      }
      EntriesOfLines(rest);
      EntriesOfLinesCons(xs[0], rest);
      assert [xs[0]] + rest == xs;
    }
  }

  lemma EntriesOfLinesCons(x: string, rest: seq<string>)
    requires Storable(x) && Entries(Lined(rest)) == rest
    ensures Entries(Lined([x] + rest)) == [x] + rest
  {
    var l := Lined([x] + rest);
    assert ([x] + rest)[1..] == rest;
    assert l == [x + "\n"] + Lined(rest);
    assert l[1..] == Lined(rest);
    EntryOfLine(x);
  }

  lemma EntryOfLine(x: string)
    requires Storable(x)
    ensures EntryOf(x + "\n") == [x]
  {
    assert AllSpace("\n");
    StripExact("", x, "\n");
    assert "" + x + "\n" == x + "\n";
  }

  /**
   * Reading back the list `update_processing_list` wrote gives the same
   * items, in order, when each is a stripped one-line entry.
   */
  lemma ListRoundTrip(xs: seq<string>)
    requires forall i | 0 <= i < |xs| :: Storable(xs[i])
    ensures Entries(ReadLines(FormatList(xs))) == xs
  {
    FormatLines(xs);
    NoCarriageReturn(FormatList(xs));
    EntriesOfLines(xs);
  }

  /** A line as `readlines` returns it: a line break, if any, only at the end. */
  predicate Shaped(l: string) {
    '\r' !in l && forall k | 0 <= k < |l| - 1 :: l[k] != '\n'
  }

  predicate BreakFree(x: string) {
    '\n' !in x && '\r' !in x
  }

  /** Every item the reader returns from such lines is stored back unchanged. */
  lemma {:induction false} EntriesStorable(lines: seq<string>)
    requires forall i | 0 <= i < |lines| :: Shaped(lines[i])
    ensures forall i | 0 <= i < |Entries(lines)| :: Storable(Entries(lines)[i])
  {
    if lines != [] {
      var rest := lines[1..];
      assert forall i | 0 <= i < |rest| :: Shaped(rest[i]) by {
        forall i | 0 <= i < |rest| ensures Shaped(rest[i]) {
          assert rest[i] == lines[i + 1];
        }
      }
      EntriesStorable(rest);
      ShapedStrip(lines[0]);
      StorableCons(EntryOf(lines[0]), Entries(rest));
    }
  }

  lemma StorableCons(a: seq<string>, b: seq<string>)
    requires forall i | 0 <= i < |a| :: Storable(a[i])
    requires forall i | 0 <= i < |b| :: Storable(b[i])
    ensures forall i | 0 <= i < |a + b| :: Storable((a + b)[i])
  {
  }

  /** A shaped line strips to text without a line break. */
  lemma ShapedStrip(l: string)
    requires Shaped(l)
    ensures BreakFree(Strip(l))
  {
    if l != [] && l[|l| - 1] == '\n' {
      var x := l[..|l| - 1];
      assert l == x + ['\n'];
      assert BreakFree(x);
      StripSlice(x);
      StripTrailingSpace(x, '\n');
    } else {
      assert BreakFree(l);
      StripSlice(l);
    }
  }

  /** Each line `readlines` returns is shaped. */
  lemma {:induction false} SplitLinesShaped(s: string)
    requires '\r' !in s
    ensures forall i | 0 <= i < |SplitLines(s)| :: Shaped(SplitLines(s)[i])
    decreases |s|
  {
    if s != [] {
      var k := IndexOf(s, '\n');
      if k == |s| {
        assert SplitLines(s) == [s];
      } else {
        var rest := s[k + 1..];
        assert '\r' !in rest;
        SplitLinesShaped(rest);
        var l := s[..k + 1];
        assert Shaped(l);
        ShapedCons(l, SplitLines(rest));
      }
    }
  }

  lemma ShapedCons(l: string, ls: seq<string>)
    requires Shaped(l) && forall i | 0 <= i < |ls| :: Shaped(ls[i])
    ensures forall i | 0 <= i < |[l] + ls| :: Shaped(([l] + ls)[i])
  {
  }

  /**
   * Every item `get_files_to_process` returns is stored back unchanged, so the
   * list file rewritten with what remains of the queue reads back as it.
   */
  lemma ReadListStorable(text: string)
    ensures forall i | 0 <= i < |Entries(ReadLines(text))| :: Storable(Entries(ReadLines(text))[i])
  {
    SplitLinesShaped(UniversalNewlines(text));
    EntriesStorable(ReadLines(text));
  }
}
