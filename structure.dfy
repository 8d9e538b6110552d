/**
 * `script_create_structure.py`: read the outline `content.md`, remove the
 * top-level folders a previous run generated, write the site's home page and
 * create one folder with an `index.md` page per outline heading.
 *
 * The outline is a sequence of lines (as `readlines` returns them). The
 * specification functions below describe, for the outline as a whole, which
 * heading is nested under which, where its folder goes and what its page
 * says; the recursive `CreateStructure` method, which mimics the script's
 * call stack, is proved to perform exactly those writes in outline order.
 * `slugify` is a parameter.
 */
module Structure {
  import opened Wrappers
  import opened Text
  import opened FileSystem
  import opened Outline
  import opened PageFormat

  type Slugify = string -> string

  // ---------------------------------------------------------------------------
  // The outline as a whole

  /**
   * What the script sees in one outline line: the outline-line match, the
   * level of its number (0 when it is not a heading) and the level of the
   * dotted number it starts with (0 when it starts with none), which is what
   * the `has_children` test looks at.
   */
  datatype Row = Row(heading: Option<Heading>, level: nat, leadLevel: nat)

  function ParseLine(line: string): (r: Row)
    ensures r.heading.Some? ==> r.level >= 1
  {
    var m := Match(line);
    var n := NumberPrefix(line);
    Row(m, if m.Some? then Level(m.value.number) else 0, if n > 0 then Level(line[..n]) else 0)
  }

  function Parse(doc: seq<string>): (rows: seq<Row>)
    ensures |rows| == |doc|
    ensures forall j | 0 <= j < |doc| :: rows[j] == ParseLine(doc[j])
  {
    seq(|doc|, j requires 0 <= j < |doc| => ParseLine(doc[j]))
  }

  predicate IsHeading(doc: seq<Row>, j: nat) {
    j < |doc| && doc[j].heading.Some?
  }

  function NumberAt(doc: seq<Row>, j: nat): string
    requires IsHeading(doc, j)
  {
    doc[j].heading.value.number
  }

  function TitleAt(doc: seq<Row>, j: nat): string
    requires IsHeading(doc, j)
  {
    doc[j].heading.value.title
  }

  function LevelAt(doc: seq<Row>, j: nat): (lv: nat)
    requires IsHeading(doc, j)
  {
    doc[j].level
  }

  /** The last heading before position `k`. */
  function PrevHeading(doc: seq<Row>, k: nat): (r: Option<nat>)
    requires k <= |doc|
    ensures r.Some? ==> r.value < k && IsHeading(doc, r.value)
    ensures forall i | (if r.Some? then r.value + 1 else 0) <= i < k :: !IsHeading(doc, i)
  {
    if k == 0 then None
    else if IsHeading(doc, k - 1) then Some(k - 1)
    else PrevHeading(doc, k - 1)
  }

  /** The level of the last heading before `k`; 0 when there is none. */
  function PrevLevel(doc: seq<Row>, k: nat): nat
    requires k <= |doc|
  {
    match PrevHeading(doc, k)
    case None => 0
    case Some(p) => LevelAt(doc, p)
  }

  /**
   * A heading more than one level deeper than the heading before it (or, for
   * the first heading, deeper than level 1). The script stops with an
   * `UnboundLocalError` at the first such heading: the recursive call for it
   * is made from a call that has not yet assigned its `current_path` and
   * `title`.
   */
  predicate Bad(doc: seq<Row>, j: nat)
    requires j < |doc|
  {
    IsHeading(doc, j) && LevelAt(doc, j) > PrevLevel(doc, j) + 1
  }

  predicate NoBad(doc: seq<Row>, a: nat, b: nat)
    requires b <= |doc|
  {
    forall j | a <= j < b :: !Bad(doc, j)
  }

  /** Every heading in `doc[a..b]` is at level `lv` or deeper. */
  predicate AllAtLeast(doc: seq<Row>, a: nat, b: nat, lv: nat)
    requires b <= |doc|
  {
    forall j | a <= j < b && IsHeading(doc, j) :: LevelAt(doc, j) >= lv
  }

  /** The last heading before `k` that is shallower than `lv`. */
  function NearestAbove(doc: seq<Row>, lv: nat, k: nat): (r: Option<nat>)
    requires k <= |doc|
    ensures r.Some? ==> r.value < k && IsHeading(doc, r.value) && LevelAt(doc, r.value) < lv
  {
    if k == 0 then None
    else if IsHeading(doc, k - 1) && LevelAt(doc, k - 1) < lv then Some(k - 1)
    else NearestAbove(doc, lv, k - 1)
  }

  /** The heading a heading is nested under: the nearest shallower one before it. */
  function Parent(doc: seq<Row>, j: nat): (r: Option<nat>)
    requires IsHeading(doc, j)
    ensures r.Some? ==> r.value < j && IsHeading(doc, r.value)
  {
    NearestAbove(doc, LevelAt(doc, j), j)
  }

  /** The folder of a heading: its parent's folder (the working directory at the top) joined with its slug. */
  function PathOf(doc: seq<Row>, j: nat, slug: Slugify): Path
    requires IsHeading(doc, j)
    decreases j
  {
    var up := match Parent(doc, j) case None => [] case Some(p) => PathOf(doc, p, slug);
    Join(up, slug(TitleAt(doc, j)))
  }

  /** The `parent:` written on a heading's page: its parent's title, `Home` at the top. */
  function ParentTitle(doc: seq<Row>, j: nat): string
    requires IsHeading(doc, j)
  {
    match Parent(doc, j) case None => "Home" case Some(p) => TitleAt(doc, p)
  }

  /**
   * `has_children`: the very next line starts with a dotted number that is
   * deeper than the heading (checked with `re.match(r'^(\d+(\.\d+)*)', ...)`,
   * so the line need not be a full outline line).
   */
  predicate HasChildren(doc: seq<Row>, j: nat)
    requires IsHeading(doc, j)
  {
    NextDeeper(doc, j, LevelAt(doc, j))
  }

  /** The line after `j` starts with a dotted number deeper than `level`. */
  predicate NextDeeper(doc: seq<Row>, j: nat, level: nat) {
    j + 1 < |doc| && doc[j + 1].leadLevel > level
  }

  /** The `index.md` text written for a heading. */
  const Rule: string := "---\n"
  const Layout: string := "layout: default\n"
  const TitleKey: string := "title: "
  const ParentKey: string := "parent: "
  const NavKey: string := "nav_order: "
  const ChildrenLine: string := "has_children: true\n"
  const Placeholder: string := "This is a placeholder for the content.\n"

  function IndexPage(title: string, parentTitle: string, navOrder: string, hasChildren: bool): string {
    Rule + Layout
    + TitleKey + title + "\n"
    + ParentKey + parentTitle + "\n"
    + NavKey + navOrder + "\n"
    + (if hasChildren then ChildrenLine else "")
    + Rule + "\n"
    + "# " + title + "\n\n"
    + Placeholder
  }

  /** One `index.md` the script writes: the heading's folder and the fields of its page. */
  datatype PageWrite = PageWrite(dir: Path, title: string, parentTitle: string, number: string, hasChildren: bool)

  /** Carrying out the writes in order: `os.makedirs` of each folder, then its `index.md`. */
  function Perform(fs: FS, ws: seq<PageWrite>): FS
    decreases |ws|, 1
  {
    if ws == [] then fs else PerformLast(fs, ws)
  }

  /** `Perform` for a non-empty log: the last write, made on the tree the others leave. */
  function PerformLast(fs: FS, ws: seq<PageWrite>): FS
    requires ws != []
    decreases |ws|, 0
  {
    var w := ws[|ws| - 1];
    var before := Perform(fs, ws[..|ws| - 1]);
    WriteFile(MakeDirs(before, w.dir), PagePath(w), PageText(w))
  }

  /** Where a write puts its page. */
  function PagePath(w: PageWrite): Path {
    w.dir + ["index.md"]
  }

  /** What a write puts in its page; `nav_order` is the last component of the number. */
  function PageText(w: PageWrite): string {
    IndexPage(w.title, w.parentTitle, NavOrder(w.number), w.hasChildren)
  }

  /** The write the script makes for heading `j`. */
  function WriteAt(doc: seq<Row>, j: nat, slug: Slugify): PageWrite
    requires IsHeading(doc, j)
  {
    PageWrite(PathOf(doc, j, slug), TitleAt(doc, j), ParentTitle(doc, j), NumberAt(doc, j), HasChildren(doc, j))
  }

  /** The writes for the headings among `doc[a..b]`, in outline order. */
  function Steps(doc: seq<Row>, a: nat, b: nat, slug: Slugify): seq<PageWrite>
    requires a <= b <= |doc|
    decreases b - a
  {
    if a == b then []
    else Steps(doc, a, b - 1, slug) + (if IsHeading(doc, b - 1) then [WriteAt(doc, b - 1, slug)] else [])
  }

  // ---------------------------------------------------------------------------
  // Lemmas about the outline

  /** Parsed rows: a heading's level is its number's level, which is at least 1. */
  predicate WellParsed(doc: seq<Row>) {
    forall j | 0 <= j < |doc| && doc[j].heading.Some? :: doc[j].level >= 1
  }

  lemma {:induction false} NearestAboveSkip(doc: seq<Row>, lv: nat, a: nat, b: nat)
    requires a <= b <= |doc| && AllAtLeast(doc, a, b, lv)
    ensures NearestAbove(doc, lv, b) == NearestAbove(doc, lv, a)
    decreases b - a
  {
    if a < b {
      NearestAboveSkip(doc, lv, a, b - 1);
    }
  }

  /** Right after a shallower heading, that heading is the nearest shallower one. */
  lemma {:induction false} NearestAboveAfterPrev(doc: seq<Row>, lv: nat, k: nat)
    requires k <= |doc|
    requires PrevHeading(doc, k).Some? ==> LevelAt(doc, PrevHeading(doc, k).value) < lv
    requires PrevHeading(doc, k).None? ==> lv <= 1
    requires WellParsed(doc)
    ensures NearestAbove(doc, lv, k) == PrevHeading(doc, k)
    decreases k
  {
    if k > 0 && !IsHeading(doc, k - 1) {
      NearestAboveAfterPrev(doc, lv, k - 1);
    }
  }

  lemma {:induction false} PrevHeadingIn(doc: seq<Row>, a: nat, b: nat)
    requires a < b <= |doc| && IsHeading(doc, a)
    ensures PrevHeading(doc, b).Some? && a <= PrevHeading(doc, b).value
    decreases b
  {
    if b - 1 > a && !IsHeading(doc, b - 1) {
      PrevHeadingIn(doc, a, b - 1);
    }
  }

  /**
   * In an outline that has no bad heading up to `k`, the nearest heading
   * before `k` shallower than a level at most one below the previous level
   * sits exactly one level up.
   */
  lemma {:induction false} NearestAboveLevel(doc: seq<Row>, lv: nat, k: nat)
    requires k <= |doc| && NoBad(doc, 0, k)
    requires 2 <= lv <= PrevLevel(doc, k) + 1
    ensures NearestAbove(doc, lv, k).Some?
    ensures LevelAt(doc, NearestAbove(doc, lv, k).value) == lv - 1
    decreases k
  {
    var q := PrevHeading(doc, k).value;
    NearestAboveSkip(doc, lv, q + 1, k);
    if LevelAt(doc, q) >= lv {
      assert !Bad(doc, q);
      NearestAboveLevel(doc, lv, q);
    }
  }

  /**
   * In an outline without bad headings, a top-level heading has no parent
   * and every other heading's parent is exactly one level up.
   */
  lemma ParentLevel(doc: seq<Row>, j: nat)
    requires IsHeading(doc, j) && NoBad(doc, 0, j + 1) && WellParsed(doc)
    ensures Parent(doc, j).None? <==> LevelAt(doc, j) == 1
    ensures Parent(doc, j).Some? ==> LevelAt(doc, Parent(doc, j).value) == LevelAt(doc, j) - 1
  {
    assert !Bad(doc, j);
    if LevelAt(doc, j) >= 2 {
      NearestAboveLevel(doc, LevelAt(doc, j), j);
    }
  }

  /** With slugs that are never empty, a heading's folder is as deep as its number. */
  lemma {:induction false} PathDepth(doc: seq<Row>, j: nat, slug: Slugify)
    requires IsHeading(doc, j) && NoBad(doc, 0, j + 1) && WellParsed(doc)
    requires forall t :: slug(t) != ""
    ensures |PathOf(doc, j, slug)| == LevelAt(doc, j)
    decreases j
  {
    ParentLevel(doc, j);
    match Parent(doc, j)
    case None =>
    case Some(p) =>
      PathDepth(doc, p, slug);
  }

  /** A top-level heading's folder sits directly in the working directory. */
  lemma TopLevelPath(doc: seq<Row>, j: nat, slug: Slugify)
    requires IsHeading(doc, j) && LevelAt(doc, j) == 1 && WellParsed(doc)
    ensures PathOf(doc, j, slug) == Join([], slug(TitleAt(doc, j)))
    ensures ParentTitle(doc, j) == "Home"
  {
    var r := Parent(doc, j);
  }

  // ---------------------------------------------------------------------------
  // Handling the outline in order

  lemma {:induction false} StepsAppend(doc: seq<Row>, a: nat, m: nat, b: nat, slug: Slugify)
    requires a <= m <= b <= |doc|
    ensures Steps(doc, a, m, slug) + Steps(doc, m, b, slug) == Steps(doc, a, b, slug)
    decreases b - m
  {
    if m < b {
      StepsAppend(doc, a, m, b - 1, slug);
    }
  }

  lemma PerformSnoc(fs: FS, ws: seq<PageWrite>, w: PageWrite)
    ensures Perform(fs, ws + [w])
         == WriteFile(MakeDirs(Perform(fs, ws), w.dir), PagePath(w), PageText(w))
  {
    assert (ws + [w])[..|ws|] == ws;
    assert Perform(fs, ws + [w]) == PerformLast(fs, ws + [w]);
  }

  /** Where a call at level `level` stops: the end of the outline or a shallower heading. */
  predicate Stops(doc: seq<Row>, k: nat, level: nat)
    requires k <= |doc|
  {
    k == |doc| || (IsHeading(doc, k) && LevelAt(doc, k) < level)
  }

  /**
   * What holds when the script enters a call for `level` at outline position
   * `off` on behalf of heading `parent`, the heading right before `off`
   * (none at the top).
   */
  ghost predicate CallEntry(doc: seq<Row>, off: nat, level: nat, parent: Option<nat>)
    requires off <= |doc|
  {
    && WellParsed(doc)
    && PrevHeading(doc, off) == parent
    && (parent.None? ==> level == 1)
    && (parent.Some? ==> LevelAt(doc, parent.value) == level - 1)
  }

  function PathOrRoot(doc: seq<Row>, parent: Option<nat>, slug: Slugify): Path
    requires parent.Some? ==> IsHeading(doc, parent.value)
  {
    match parent case None => [] case Some(p) => PathOf(doc, p, slug)
  }

  function TitleOrHome(doc: seq<Row>, parent: Option<nat>): string
    requires parent.Some? ==> IsHeading(doc, parent.value)
  {
    match parent case None => "Home" case Some(p) => TitleAt(doc, p)
  }

  /** Inside a call, a heading at the call's own level is nested under the call's parent. */
  lemma ParentInCall(doc: seq<Row>, off: nat, level: nat, parent: Option<nat>, j: nat, slug: Slugify)
    requires off <= j < |doc| && CallEntry(doc, off, level, parent)
    requires AllAtLeast(doc, off, j, level)
    requires IsHeading(doc, j) && LevelAt(doc, j) == level
    ensures Parent(doc, j) == parent
    ensures PathOf(doc, j, slug) == Join(PathOrRoot(doc, parent, slug), slug(TitleAt(doc, j)))
    ensures ParentTitle(doc, j) == TitleOrHome(doc, parent)
  {
    NearestAboveSkip(doc, level, off, j);
    NearestAboveAfterPrev(doc, level, off);
  }

  lemma NoBadJoin(doc: seq<Row>, a: nat, m: nat, b: nat)
    requires a <= m <= b <= |doc| && NoBad(doc, a, m) && NoBad(doc, m, b)
    ensures NoBad(doc, a, b)
  {
  }

  /** A line that is not a heading changes nothing a call keeps track of. */
  lemma SkipLine(doc: seq<Row>, off: nat, j: nat, level: nat)
    requires off <= j < |doc| && !IsHeading(doc, j)
    requires NoBad(doc, off, j) && AllAtLeast(doc, off, j, level)
    ensures NoBad(doc, off, j + 1) && AllAtLeast(doc, off, j + 1, level)
    ensures PrevHeading(doc, j + 1) == PrevHeading(doc, j)
  {
  }

  /** A deeper heading met before the call has a heading of its own level is a bad heading. */
  lemma UnassignedIsBad(doc: seq<Row>, off: nat, level: nat, parent: Option<nat>, j: nat)
    requires off <= j < |doc| && CallEntry(doc, off, level, parent)
    requires PrevHeading(doc, j) == parent
    requires IsHeading(doc, j) && LevelAt(doc, j) > level
    ensures Bad(doc, j)
  {
  }

  /** After a nested call returns, the lines it handled are deeper than the caller's level. */
  lemma AfterNested(doc: seq<Row>, off: nat, level: nat, j: nat, k: nat)
    requires off <= j < j + k <= |doc| && IsHeading(doc, j)
    requires NoBad(doc, off, j) && AllAtLeast(doc, off, j, level)
    requires NoBad(doc, j, j + k) && AllAtLeast(doc, j, j + k, level + 1)
    ensures NoBad(doc, off, j + k) && AllAtLeast(doc, off, j + k, level)
    ensures PrevHeading(doc, j + k).Some? && LevelAt(doc, PrevHeading(doc, j + k).value) > level
  {
    PrevHeadingIn(doc, j, j + k);
  }

  /**
   * A heading at the call's own level: it is not bad, it is nested under the
   * call's parent, and the call's bookkeeping moves past it.
   */
  lemma AtLevel(doc: seq<Row>, off: nat, level: nat, parent: Option<nat>, j: nat, cur: Option<nat>, back: bool, slug: Slugify)
    requires off <= j < |doc| && CallEntry(doc, off, level, parent)
    requires NoBad(doc, off, j) && AllAtLeast(doc, off, j, level)
    requires IsHeading(doc, j) && LevelAt(doc, j) == level
    requires cur.None? ==> !back && PrevHeading(doc, j) == parent
    requires cur.Some? ==> IsHeading(doc, cur.value) && LevelAt(doc, cur.value) == level
    requires cur.Some? && !back ==> PrevHeading(doc, j) == cur
    requires back ==> PrevHeading(doc, j).Some? && LevelAt(doc, PrevHeading(doc, j).value) > level
    ensures NoBad(doc, off, j + 1) && AllAtLeast(doc, off, j + 1, level)
    ensures PrevHeading(doc, j + 1) == Some(j)
    ensures PathOf(doc, j, slug) == Join(PathOrRoot(doc, parent, slug), slug(TitleAt(doc, j)))
    ensures ParentTitle(doc, j) == TitleOrHome(doc, parent)
  {
    ParentInCall(doc, off, level, parent, j, slug);
    assert !Bad(doc, j);
  }

  /**
   * What the loop of a call for `level` entered at `off` keeps true once it
   * has reached outline position `k`: no bad heading so far, nothing
   * shallower than `level`, the writes made so far are exactly those
   * lines' writes, and the locals `current_path`/`title`
   * (`current`) are those of the last heading of the call's own level
   * (`cur`), if any. `back` says that the previous step returned from a
   * nested call, which stopped at a shallower heading.
   */
  ghost predicate Progress(doc: seq<Row>, off: nat, level: nat, parent: Option<nat>, slug: Slugify,
                           k: nat, acc: seq<PageWrite>, current: Option<(Path, string)>, cur: Option<nat>, back: bool)
  {
    && off <= k <= |doc|
    && NoBad(doc, off, k) && AllAtLeast(doc, off, k, level)
    && acc == Steps(doc, off, k, slug)
    && (current.None? <==> cur.None?)
    && (cur.None? ==> !back && PrevHeading(doc, k) == parent)
    && (cur.Some? ==> && off <= cur.value < k
                      && IsHeading(doc, cur.value) && LevelAt(doc, cur.value) == level
                      && current.value == (PathOf(doc, cur.value, slug), TitleAt(doc, cur.value)))
    && (cur.Some? && !back ==> PrevHeading(doc, k) == cur)
    && (back ==> && Stops(doc, k, level + 1)
                 && PrevHeading(doc, k).Some? && LevelAt(doc, PrevHeading(doc, k).value) > level)
  }

  lemma ProgressStart(doc: seq<Row>, off: nat, level: nat, parent: Option<nat>, slug: Slugify)
    requires off <= |doc| && CallEntry(doc, off, level, parent)
    ensures Progress(doc, off, level, parent, slug, off, [], None, None, false)
  {
  }

  lemma ProgressSkip(doc: seq<Row>, off: nat, level: nat, parent: Option<nat>, slug: Slugify,
                     k: nat, acc: seq<PageWrite>, current: Option<(Path, string)>, cur: Option<nat>, back: bool)
    requires Progress(doc, off, level, parent, slug, k, acc, current, cur, back)
    requires k < |doc| && !IsHeading(doc, k)
    ensures Progress(doc, off, level, parent, slug, k + 1, acc, current, cur, back)
  {
    SkipLine(doc, off, k, level);
    assert Steps(doc, off, k + 1, slug) == Steps(doc, off, k, slug) + [];
  }

  /** A deeper heading before any heading of the call's own level: the `UnboundLocalError`. */
  lemma ProgressUnassigned(doc: seq<Row>, off: nat, level: nat, parent: Option<nat>, slug: Slugify,
                           k: nat, acc: seq<PageWrite>)
    requires Progress(doc, off, level, parent, slug, k, acc, None, None, false)
    requires CallEntry(doc, off, level, parent)
    requires IsHeading(doc, k) && LevelAt(doc, k) > level
    ensures Bad(doc, k)
  {
    UnassignedIsBad(doc, off, level, parent, k);
  }

  /** Entering a nested call for the heading right below `cur`. */
  lemma ProgressDescend(doc: seq<Row>, off: nat, level: nat, parent: Option<nat>, slug: Slugify,
                        k: nat, acc: seq<PageWrite>, current: Option<(Path, string)>, cur: Option<nat>, back: bool)
    requires Progress(doc, off, level, parent, slug, k, acc, current, cur, back)
    requires CallEntry(doc, off, level, parent)
    requires cur.Some? && IsHeading(doc, k) && LevelAt(doc, k) > level
    ensures CallEntry(doc, k, level + 1, cur)
    ensures current.Some? && current.value.0 == PathOrRoot(doc, cur, slug) && current.value.1 == TitleOrHome(doc, cur)
  {
  }

  /** The call nested under `cur` failed `e` lines further on. */
  lemma ProgressNestedFailed(doc: seq<Row>, off: nat, level: nat, parent: Option<nat>, slug: Slugify,
                             k: nat, acc: seq<PageWrite>, current: Option<(Path, string)>, cur: Option<nat>, back: bool,
                             e: nat, acc': seq<PageWrite>)
    requires Progress(doc, off, level, parent, slug, k, acc, current, cur, back)
    requires k + e < |doc| && NoBad(doc, k, k + e) && Bad(doc, k + e)
    requires acc' == acc + Steps(doc, k, k + e, slug)
    ensures NoBad(doc, off, k + e) && acc' == Steps(doc, off, k + e, slug)
  {
    StepsAppend(doc, off, k, k + e, slug);
    NoBadJoin(doc, off, k, k + e);
  }

  /** The call nested under `cur` handled `v` lines and stopped at a heading shallower than its level. */
  lemma ProgressNested(doc: seq<Row>, off: nat, level: nat, parent: Option<nat>, slug: Slugify,
                       k: nat, acc: seq<PageWrite>, current: Option<(Path, string)>, cur: Option<nat>, back: bool,
                       v: nat, acc': seq<PageWrite>)
    requires Progress(doc, off, level, parent, slug, k, acc, current, cur, back)
    requires cur.Some? && IsHeading(doc, k) && LevelAt(doc, k) > level
    requires k + v <= |doc|
    requires NoBad(doc, k, k + v) && AllAtLeast(doc, k, k + v, level + 1)
    requires Stops(doc, k + v, level + 1)
    requires acc' == acc + Steps(doc, k, k + v, slug)
    ensures v > 0
    ensures Progress(doc, off, level, parent, slug, k + v, acc', current, cur, true)
  {
    StepsAppend(doc, off, k, k + v, slug);
    AfterNested(doc, off, level, k, v);
  }

  /** A heading of the call's own level: its folder and page are written and it becomes `current`. */
  lemma ProgressAtLevel(doc: seq<Row>, off: nat, level: nat, parent: Option<nat>, slug: Slugify,
                        k: nat, acc: seq<PageWrite>, current: Option<(Path, string)>, cur: Option<nat>, back: bool,
                        parentPath: Path, parentTitle: string)
    requires Progress(doc, off, level, parent, slug, k, acc, current, cur, back)
    requires CallEntry(doc, off, level, parent)
    requires parentPath == PathOrRoot(doc, parent, slug) && parentTitle == TitleOrHome(doc, parent)
    requires IsHeading(doc, k) && LevelAt(doc, k) == level
    ensures
      var title := TitleAt(doc, k);
      var p := Join(parentPath, slug(title));
      var w := PageWrite(p, title, parentTitle, NumberAt(doc, k), HasChildren(doc, k));
      Progress(doc, off, level, parent, slug, k + 1, acc + [w], Some((p, title)), Some(k), false)
  {
    AtLevel(doc, off, level, parent, k, cur, back, slug);
    assert Steps(doc, off, k + 1, slug) == Steps(doc, off, k, slug) + [WriteAt(doc, k, slug)];
  }

  // ---------------------------------------------------------------------------
  // `create_structure`


  /**
   * What `create_structure(lines, parent_path, parent_title, level)` does,
   * called on the outline from position `start` on, from the moment its loop
   * reaches position `i`; `current` holds its `current_path` and `title`
   * locals (unassigned until the call has handled a heading of its own
   * level) and `acc` the writes it has made so far. The first component is
   * `Ok(n)` when the call returns `n`, or `Err(n)` when it raises
   * `UnboundLocalError` at its line `n` (both counted from `start`); the
   * second is every write the call makes, nested calls' included, in order.
   */
  function Run(doc: seq<Row>, start: nat, i: nat, parentPath: Path, parentTitle: string, level: nat,
               acc: seq<PageWrite>, current: Option<(Path, string)>, slug: Slugify): (res: (Result<nat, nat>, seq<PageWrite>))
    requires start <= i <= |doc| && (current.Some? ==> start < i)
    ensures res.0.Ok? ==> && i <= start + res.0.value <= |doc|
                          && (start + res.0.value == |doc| || (doc[start + res.0.value].heading.Some?
                                                               && doc[start + res.0.value].level < level))
    ensures res.0.Err? ==> i <= start + res.0.error < |doc|
    decreases |doc| - start, |doc| - i, 1
  {
    if i == |doc| then (Ok(i - start), acc)
    else Step(doc, start, i, parentPath, parentTitle, level, acc, current, slug)
  }

  /** One pass of the loop's body on line `i`, followed by the rest of the loop. */
  function Step(doc: seq<Row>, start: nat, i: nat, parentPath: Path, parentTitle: string, level: nat,
                acc: seq<PageWrite>, current: Option<(Path, string)>, slug: Slugify): (res: (Result<nat, nat>, seq<PageWrite>))
    requires start <= i < |doc| && (current.Some? ==> start < i)
    ensures res.0.Ok? ==> && i <= start + res.0.value <= |doc|
                          && (start + res.0.value == |doc| || (doc[start + res.0.value].heading.Some?
                                                               && doc[start + res.0.value].level < level))
    ensures res.0.Err? ==> i <= start + res.0.error < |doc|
    decreases |doc| - start, |doc| - i, 0
  {
    var row := doc[i];
    if row.heading.None? then Run(doc, start, i + 1, parentPath, parentTitle, level, acc, current, slug)
    else if row.level < level then (Ok(i - start), acc)
    else if row.level > level then
      if current.None? then (Err(i - start), acc)
      else
        var (sub, ws) := Run(doc, i, i, current.value.0, current.value.1, level + 1, [], None, slug);
        if sub.Err? then (Err(i - start + sub.error), acc + ws)
        else Run(doc, start, i + sub.value, parentPath, parentTitle, level, acc + ws, current, slug)
    else
      var title := row.heading.value.title;
      var p := Join(parentPath, slug(title));
      var w := PageWrite(p, title, parentTitle, row.heading.value.number, NextDeeper(doc, i, level));
      Run(doc, start, i + 1, parentPath, parentTitle, level, acc + [w], Some((p, title)), slug)
  }

  /**
   * The call entered at `start`, having reached position `i` with `acc` and
   * `current`, ends with `res`.
   */
  ghost predicate RunsTo(doc: seq<Row>, start: nat, i: nat, parentPath: Path, parentTitle: string, level: nat,
                         acc: seq<PageWrite>, current: Option<(Path, string)>, slug: Slugify,
                         res: (Result<nat, nat>, seq<PageWrite>))
  {
    && start <= i <= |doc| && (current.Some? ==> start < i)
    && Run(doc, start, i, parentPath, parentTitle, level, acc, current, slug) == res
  }

  // One step of the loop, as `Run` sees it.

  /** The end of the outline or a shallower heading: the call returns its position. */
  lemma RunStop(doc: seq<Row>, start: nat, i: nat, parentPath: Path, parentTitle: string, level: nat,
                acc: seq<PageWrite>, current: Option<(Path, string)>, slug: Slugify, res: (Result<nat, nat>, seq<PageWrite>))
    requires RunsTo(doc, start, i, parentPath, parentTitle, level, acc, current, slug, res)
    requires i == |doc| || (doc[i].heading.Some? && doc[i].level < level)
    ensures res == (Ok(i - start), acc)
  {
    if i < |doc| {
      assert Run(doc, start, i, parentPath, parentTitle, level, acc, current, slug) == Step(doc, start, i, parentPath, parentTitle, level, acc, current, slug);
    }
  }

  /** A deeper heading while `current` is unassigned: the call raises there. */
  lemma RunUnassigned(doc: seq<Row>, start: nat, i: nat, parentPath: Path, parentTitle: string, level: nat,
                      acc: seq<PageWrite>, slug: Slugify, res: (Result<nat, nat>, seq<PageWrite>))
    requires i < |doc| && doc[i].heading.Some? && doc[i].level > level
    requires RunsTo(doc, start, i, parentPath, parentTitle, level, acc, None, slug, res)
    ensures res == (Err(i - start), acc)
  {
    assert Run(doc, start, i, parentPath, parentTitle, level, acc, None, slug) == Step(doc, start, i, parentPath, parentTitle, level, acc, None, slug);
  }

  /** A line that is not a heading is passed over. */
  lemma RunSkip(doc: seq<Row>, start: nat, i: nat, parentPath: Path, parentTitle: string, level: nat,
                acc: seq<PageWrite>, current: Option<(Path, string)>, slug: Slugify, res: (Result<nat, nat>, seq<PageWrite>))
    requires RunsTo(doc, start, i, parentPath, parentTitle, level, acc, current, slug, res)
    requires i < |doc| && doc[i].heading.None?
    ensures RunsTo(doc, start, i + 1, parentPath, parentTitle, level, acc, current, slug, res)
  {
    assert Run(doc, start, i, parentPath, parentTitle, level, acc, current, slug) == Step(doc, start, i, parentPath, parentTitle, level, acc, current, slug);
  }

  /**
   * A deeper heading once `current` is assigned: the nested call ends with
   * `(sub, ws)`; the caller raises with it or carries on after it.
   */
  lemma RunNested(doc: seq<Row>, start: nat, i: nat, parentPath: Path, parentTitle: string, level: nat,
                  acc: seq<PageWrite>, current: Option<(Path, string)>, slug: Slugify,
                  sub: Result<nat, nat>, ws: seq<PageWrite>, res: (Result<nat, nat>, seq<PageWrite>))
    requires i < |doc| && doc[i].heading.Some? && doc[i].level > level && current.Some?
    requires RunsTo(doc, i, i, current.value.0, current.value.1, level + 1, [], None, slug, (sub, ws))
    requires RunsTo(doc, start, i, parentPath, parentTitle, level, acc, current, slug, res)
    ensures sub.Ok? ==> && 0 < sub.value && i + sub.value <= |doc|
                        && RunsTo(doc, start, i + sub.value, parentPath, parentTitle, level, acc + ws, current, slug, res)
    ensures sub.Err? ==> res == (Err(i - start + sub.error), acc + ws)
  {
    assert Run(doc, start, i, parentPath, parentTitle, level, acc, current, slug) == Step(doc, start, i, parentPath, parentTitle, level, acc, current, slug);
  }

  /** A heading of the call's own level: its write `w` is made and it becomes `current`. */
  lemma RunAtLevel(doc: seq<Row>, start: nat, i: nat, parentPath: Path, parentTitle: string, level: nat,
                   acc: seq<PageWrite>, current: Option<(Path, string)>, slug: Slugify, w: PageWrite,
                   res: (Result<nat, nat>, seq<PageWrite>))
    requires i < |doc| && doc[i].heading.Some? && doc[i].level == level
    requires w.title == doc[i].heading.value.title && w.number == doc[i].heading.value.number
    requires w.dir == Join(parentPath, slug(w.title)) && w.parentTitle == parentTitle
    requires w.hasChildren == NextDeeper(doc, i, level)
    requires RunsTo(doc, start, i, parentPath, parentTitle, level, acc, current, slug, res)
    ensures RunsTo(doc, start, i + 1, parentPath, parentTitle, level, acc + [w], Some((w.dir, w.title)), slug, res)
  {
    assert Run(doc, start, i, parentPath, parentTitle, level, acc, current, slug) == Step(doc, start, i, parentPath, parentTitle, level, acc, current, slug);
  }

  /** What a call entered at `off` has done when it returns or raises. */
  ghost predicate Handled(doc: seq<Row>, off: nat, level: nat, slug: Slugify, res: (Result<nat, nat>, seq<PageWrite>)) {
    match res.0
    case Ok(n) =>
      && off + n <= |doc|
      && NoBad(doc, off, off + n) && AllAtLeast(doc, off, off + n, level) && Stops(doc, off + n, level)
      && res.1 == Steps(doc, off, off + n, slug)
    case Err(n) =>
      && off + n < |doc|
      && NoBad(doc, off, off + n) && Bad(doc, off + n)
      && res.1 == Steps(doc, off, off + n, slug)
  }

  /**
   * The meaning of a call: it handles the lines up to the first shallower
   * heading, or raises at the first bad heading, making exactly the writes
   * of the lines before that point. `res` is how the call ends once its
   * loop has reached position `k`.
   */
  lemma {:induction false} RunMeaning(doc: seq<Row>, off: nat, level: nat, parent: Option<nat>, slug: Slugify,
                                      parentPath: Path, parentTitle: string,
                                      k: nat, acc: seq<PageWrite>, current: Option<(Path, string)>, cur: Option<nat>, back: bool,
                                      res: (Result<nat, nat>, seq<PageWrite>))
    requires Progress(doc, off, level, parent, slug, k, acc, current, cur, back)
    requires CallEntry(doc, off, level, parent)
    requires parentPath == PathOrRoot(doc, parent, slug) && parentTitle == TitleOrHome(doc, parent)
    requires RunsTo(doc, off, k, parentPath, parentTitle, level, acc, current, slug, res)
    ensures Handled(doc, off, level, slug, res)
    decreases |doc| - off, |doc| - k, 2
  {
    if k == |doc| || (doc[k].heading.Some? && doc[k].level < level) {
      RunStop(doc, off, k, parentPath, parentTitle, level, acc, current, slug, res);
    } else if doc[k].heading.None? {
      RunMeaningSkip(doc, off, level, parent, slug, parentPath, parentTitle, k, acc, current, cur, back, res);
    } else if doc[k].level > level {
      RunMeaningDeeper(doc, off, level, parent, slug, parentPath, parentTitle, k, acc, current, cur, back, res);
    } else {
      RunMeaningAtLevel(doc, off, level, parent, slug, parentPath, parentTitle, k, acc, current, cur, back, res);
    }
  }

  /** `RunMeaning` for a line that is not a heading. */
  lemma {:induction false} RunMeaningSkip(doc: seq<Row>, off: nat, level: nat, parent: Option<nat>, slug: Slugify,
                                          parentPath: Path, parentTitle: string,
                                          k: nat, acc: seq<PageWrite>, current: Option<(Path, string)>, cur: Option<nat>, back: bool,
                                          res: (Result<nat, nat>, seq<PageWrite>))
    requires Progress(doc, off, level, parent, slug, k, acc, current, cur, back)
    requires CallEntry(doc, off, level, parent)
    requires parentPath == PathOrRoot(doc, parent, slug) && parentTitle == TitleOrHome(doc, parent)
    requires k < |doc| && doc[k].heading.None?
    requires RunsTo(doc, off, k, parentPath, parentTitle, level, acc, current, slug, res)
    ensures Handled(doc, off, level, slug, res)
    decreases |doc| - off, |doc| - k, 0
  {
    ProgressSkip(doc, off, level, parent, slug, k, acc, current, cur, back);
    RunSkip(doc, off, k, parentPath, parentTitle, level, acc, current, slug, res);
    RunMeaning(doc, off, level, parent, slug, parentPath, parentTitle, k + 1, acc, current, cur, back, res);
  }

  /** `RunMeaning` for a heading deeper than the call's level. */
  lemma {:induction false} RunMeaningDeeper(doc: seq<Row>, off: nat, level: nat, parent: Option<nat>, slug: Slugify,
                                            parentPath: Path, parentTitle: string,
                                            k: nat, acc: seq<PageWrite>, current: Option<(Path, string)>, cur: Option<nat>, back: bool,
                                            res: (Result<nat, nat>, seq<PageWrite>))
    requires Progress(doc, off, level, parent, slug, k, acc, current, cur, back)
    requires CallEntry(doc, off, level, parent)
    requires parentPath == PathOrRoot(doc, parent, slug) && parentTitle == TitleOrHome(doc, parent)
    requires k < |doc| && doc[k].heading.Some? && doc[k].level > level
    requires RunsTo(doc, off, k, parentPath, parentTitle, level, acc, current, slug, res)
    ensures Handled(doc, off, level, slug, res)
    decreases |doc| - off, |doc| - k, 1
  {
    if current.Some? {
      ProgressDescend(doc, off, level, parent, slug, k, acc, current, cur, back);
      ProgressStart(doc, k, level + 1, cur, slug);
      var inner := Run(doc, k, k, current.value.0, current.value.1, level + 1, [], None, slug);
      RunMeaning(doc, k, level + 1, cur, slug, current.value.0, current.value.1, k, [], None, None, false, inner);
      if inner.0.Err? {
        RunMeaningRaised(doc, off, level, parent, slug, parentPath, parentTitle, k, acc, current, cur, back, inner.0, inner.1, res);
      } else {
        RunMeaningReturned(doc, off, level, parent, slug, parentPath, parentTitle, k, acc, current, cur, back, inner.0, inner.1, res);
      }
    } else {
      RunUnassigned(doc, off, k, parentPath, parentTitle, level, acc, slug, res);
      ProgressUnassigned(doc, off, level, parent, slug, k, acc);
    }
  }

  /** `RunMeaning` once the call nested under `cur` has raised. */
  lemma RunMeaningRaised(doc: seq<Row>, off: nat, level: nat, parent: Option<nat>, slug: Slugify,
                         parentPath: Path, parentTitle: string,
                         k: nat, acc: seq<PageWrite>, current: Option<(Path, string)>, cur: Option<nat>, back: bool,
                         sub: Result<nat, nat>, ws: seq<PageWrite>, res: (Result<nat, nat>, seq<PageWrite>))
    requires Progress(doc, off, level, parent, slug, k, acc, current, cur, back)
    requires k < |doc| && doc[k].heading.Some? && doc[k].level > level && cur.Some?
    requires RunsTo(doc, k, k, current.value.0, current.value.1, level + 1, [], None, slug, (sub, ws))
    requires Handled(doc, k, level + 1, slug, (sub, ws)) && sub.Err?
    requires RunsTo(doc, off, k, parentPath, parentTitle, level, acc, current, slug, res)
    ensures Handled(doc, off, level, slug, res)
  {
    RunNested(doc, off, k, parentPath, parentTitle, level, acc, current, slug, sub, ws, res);
    ProgressNestedFailed(doc, off, level, parent, slug, k, acc, current, cur, back, sub.error, acc + ws);
    assert off + (k - off + sub.error) == k + sub.error;
  }

  /** `RunMeaning` once the call nested under `cur` has returned. */
  lemma {:induction false} RunMeaningReturned(doc: seq<Row>, off: nat, level: nat, parent: Option<nat>, slug: Slugify,
                                              parentPath: Path, parentTitle: string,
                                              k: nat, acc: seq<PageWrite>, current: Option<(Path, string)>, cur: Option<nat>, back: bool,
                                              sub: Result<nat, nat>, ws: seq<PageWrite>, res: (Result<nat, nat>, seq<PageWrite>))
    requires Progress(doc, off, level, parent, slug, k, acc, current, cur, back)
    requires CallEntry(doc, off, level, parent)
    requires parentPath == PathOrRoot(doc, parent, slug) && parentTitle == TitleOrHome(doc, parent)
    requires k < |doc| && doc[k].heading.Some? && doc[k].level > level && cur.Some?
    requires RunsTo(doc, k, k, current.value.0, current.value.1, level + 1, [], None, slug, (sub, ws))
    requires Handled(doc, k, level + 1, slug, (sub, ws)) && sub.Ok?
    requires RunsTo(doc, off, k, parentPath, parentTitle, level, acc, current, slug, res)
    ensures Handled(doc, off, level, slug, res)
    decreases |doc| - off, |doc| - k, 0
  {
    RunNested(doc, off, k, parentPath, parentTitle, level, acc, current, slug, sub, ws, res);
    ProgressNested(doc, off, level, parent, slug, k, acc, current, cur, back, sub.value, acc + ws);
    RunMeaning(doc, off, level, parent, slug, parentPath, parentTitle, k + sub.value, acc + ws, current, cur, true, res);
  }

  /** `RunMeaning` for a heading of the call's own level. */
  lemma {:induction false} RunMeaningAtLevel(doc: seq<Row>, off: nat, level: nat, parent: Option<nat>, slug: Slugify,
                                             parentPath: Path, parentTitle: string,
                                             k: nat, acc: seq<PageWrite>, current: Option<(Path, string)>, cur: Option<nat>, back: bool,
                                             res: (Result<nat, nat>, seq<PageWrite>))
    requires Progress(doc, off, level, parent, slug, k, acc, current, cur, back)
    requires CallEntry(doc, off, level, parent)
    requires parentPath == PathOrRoot(doc, parent, slug) && parentTitle == TitleOrHome(doc, parent)
    requires k < |doc| && doc[k].heading.Some? && doc[k].level == level
    requires RunsTo(doc, off, k, parentPath, parentTitle, level, acc, current, slug, res)
    ensures Handled(doc, off, level, slug, res)
    decreases |doc| - off, |doc| - k, 0
  {
    ProgressAtLevel(doc, off, level, parent, slug, k, acc, current, cur, back, parentPath, parentTitle);
    var title := TitleAt(doc, k);
    var p := Join(parentPath, slug(title));
    var w := PageWrite(p, title, parentTitle, NumberAt(doc, k), HasChildren(doc, k));
    RunAtLevel(doc, off, k, parentPath, parentTitle, level, acc, current, slug, w, res);
    RunMeaning(doc, off, level, parent, slug, parentPath, parentTitle, k + 1, acc + [w], Some((p, title)), Some(k), false, res);
  }

  /** `lines` is the outline from position `off` on. */
  ghost predicate Suffix(lines: seq<Row>, doc: seq<Row>, off: nat) {
    off + |lines| == |doc| && forall k | 0 <= k < |lines| :: lines[k] == doc[off + k]
  }

  lemma SuffixDrop(lines: seq<Row>, doc: seq<Row>, off: nat, i: nat)
    requires Suffix(lines, doc, off) && i <= |lines|
    ensures Suffix(lines[i..], doc, off + i)
  {
    forall k | 0 <= k < |lines[i..]|
      ensures lines[i..][k] == doc[off + i + k]
    {
      assert lines[i..][k] == lines[i + k];
    }
  }

  /** Carrying out two runs of writes one after the other. */
  lemma {:induction false} PerformAppend(fs: FS, a: seq<PageWrite>, b: seq<PageWrite>)
    ensures Perform(fs, a + b) == Perform(Perform(fs, a), b)
    decreases |b|
  {
    if b == [] {
      assert a + b == a;
    } else {
      var b', w := b[..|b| - 1], b[|b| - 1];
      assert b == b' + [w];
      assert a + b == (a + b') + [w];
      PerformAppend(fs, a, b');
      PerformSnoc(fs, a + b', w);
      PerformSnoc(Perform(fs, a), b', w);
    }
  }

  /**
   * The part of `create_structure`'s loop that handles a heading of the
   * call's own level: create its folder, decide `has_children` from the next
   * line, write its `index.md`, and remember its path and title. `fs0` is
   * the tree `base` after the writes `acc0`; `total` is how the call ends.
   */
  method WriteHeading(lines: seq<Row>, i: nat, parentPath: Path, parentTitle: string, level: nat,
                      fs0: FS, current0: Option<(Path, string)>, slug: Slugify,
                      ghost doc: seq<Row>, ghost off: nat, ghost pos: nat, ghost base: FS, ghost acc0: seq<PageWrite>,
                      ghost total: (Result<nat, nat>, seq<PageWrite>))
    returns (fs: FS, current: Option<(Path, string)>, ghost acc: seq<PageWrite>)
    requires Suffix(lines, doc, off) && i < |lines| && pos == off + i
    requires lines[i].heading.Some? && lines[i].level == level
    requires fs0 == Perform(base, acc0)
    requires RunsTo(doc, off, pos, parentPath, parentTitle, level, acc0, current0, slug, total)
    ensures current.Some? && fs == Perform(base, acc)
    ensures RunsTo(doc, off, pos + 1, parentPath, parentTitle, level, acc, current, slug, total)
  {
    var row := lines[i];
    assert row == doc[pos];
    var title := row.heading.value.title;
    var currentPath := Join(parentPath, slug(title));
    fs := MakeDirs(fs0, currentPath);
    var indexPath := currentPath + ["index.md"];
    var hasChildren := false;
    if i + 1 < |lines| {
      assert lines[i + 1] == doc[pos + 1];
      if lines[i + 1].leadLevel > level {
        hasChildren := true;
      }
    }
    fs := WriteFile(fs, indexPath, IndexPage(title, parentTitle, NavOrder(row.heading.value.number), hasChildren));
    ghost var w := PageWrite(currentPath, title, parentTitle, row.heading.value.number, hasChildren);
    acc := acc0 + [w];
    PerformSnoc(base, acc0, w);
    RunAtLevel(doc, off, pos, parentPath, parentTitle, level, acc0, current0, slug, w, total);
    current := Some((currentPath, title));
  }

  /**
   * The part of `create_structure`'s loop that handles a heading deeper than
   * the call's level once a `current` heading exists: the recursive call on
   * the rest of the lines, one level down.
   */
  method Descend(lines: seq<Row>, i: nat, parentPath: Path, parentTitle: string, level: nat,
                 fs0: FS, current: Option<(Path, string)>, slug: Slugify,
                 ghost doc: seq<Row>, ghost off: nat, ghost pos: nat, ghost base: FS, ghost acc: seq<PageWrite>,
                 ghost total: (Result<nat, nat>, seq<PageWrite>))
    returns (sub: Result<nat, nat>, fs: FS, ghost ws: seq<PageWrite>)
    requires Suffix(lines, doc, off) && 0 < i < |lines| && pos == off + i
    requires lines[i].heading.Some? && lines[i].level > level && current.Some?
    requires fs0 == Perform(base, acc)
    requires RunsTo(doc, off, pos, parentPath, parentTitle, level, acc, current, slug, total)
    ensures fs == Perform(base, acc + ws)
    ensures sub.Ok? ==> && 0 < sub.value && i + sub.value <= |lines|
                        && RunsTo(doc, off, pos + sub.value, parentPath, parentTitle, level, acc + ws, current, slug, total)
    ensures sub.Err? ==> total == (Err(i + sub.error), acc + ws)
    decreases |lines|, 0
  {
    assert lines[i] == doc[pos];
    var (currentPath, title) := current.value;
    SuffixDrop(lines, doc, off, i);
    sub, fs, ws := CreateStructure(lines[i..], currentPath, title, level + 1, fs0, slug, doc, pos);
    RunNested(doc, off, pos, parentPath, parentTitle, level, acc, current, slug, sub, ws, total);
    PerformAppend(base, acc, ws);
  }

  /**
   * `create_structure` itself: a loop over the lines that recurses for deeper
   * headings, creating each folder and writing each `index.md` in turn.
   * `lines` is the outline from position `off` on, as the script's
   * `lines[i:]` slices pass it down; `acc` is the writes the call makes,
   * nested calls' included, in order.
   */
  method CreateStructure(lines: seq<Row>, parentPath: Path, parentTitle: string, level: nat, fs0: FS, slug: Slugify,
                         ghost doc: seq<Row>, ghost off: nat)
    returns (r: Result<nat, nat>, fs: FS, ghost acc: seq<PageWrite>)
    requires Suffix(lines, doc, off)
    ensures RunsTo(doc, off, off, parentPath, parentTitle, level, [], None, slug, (r, acc))
    ensures fs == Perform(fs0, acc)
    decreases |lines|, 1
  {
    ghost var total := Run(doc, off, off, parentPath, parentTitle, level, [], None, slug);
    fs, acc := fs0, [];
    var i := 0;
    ghost var pos := off;
    var current: Option<(Path, string)> := None;
    while i < |lines|
      invariant pos == off + i
      invariant fs == Perform(fs0, acc)
      invariant RunsTo(doc, off, pos, parentPath, parentTitle, level, acc, current, slug, total)
      decreases |lines| - i
    {
      var row := lines[i];
      assert row == doc[pos];
      if row.heading.None? {
        RunSkip(doc, off, pos, parentPath, parentTitle, level, acc, current, slug, total);
        i, pos := i + 1, pos + 1;
      } else if row.level < level {
        RunStop(doc, off, pos, parentPath, parentTitle, level, acc, current, slug, total);
        return Ok(i), fs, acc;
      } else if row.level > level {
        if current.None? {
          RunUnassigned(doc, off, pos, parentPath, parentTitle, level, acc, slug, total);
          return Err(i), fs, acc;
        }
        var sub, fs';
        ghost var ws;
        sub, fs', ws := Descend(lines, i, parentPath, parentTitle, level, fs, current, slug, doc, off, pos, fs0, acc, total);
        if sub.Err? {
          return Err(i + sub.error), fs', acc + ws;
        }
        fs, acc := fs', acc + ws;
        i, pos := i + sub.value, pos + sub.value;
      } else {
        fs, current, acc := WriteHeading(lines, i, parentPath, parentTitle, level, fs, current, slug,
                                         doc, off, pos, fs0, acc, total);
        i, pos := i + 1, pos + 1;
      }
    }
    RunStop(doc, off, pos, parentPath, parentTitle, level, acc, current, slug, total);
    return Ok(i), fs, acc;
  }

  // ---------------------------------------------------------------------------
  // The whole outline

  /**
   * `create_structure(lines)` on a whole outline returns `len(lines)` exactly
   * when no heading is bad, and otherwise raises at the first bad heading;
   * either way it has written one page per heading before that point, in
   * outline order.
   */
  lemma CreateStructureOutcome(doc: seq<Row>, slug: Slugify, res: (Result<nat, nat>, seq<PageWrite>))
    requires WellParsed(doc)
    requires RunsTo(doc, 0, 0, [], "Home", 1, [], None, slug, res)
    ensures res.0.Ok? <==> NoBad(doc, 0, |doc|)
    ensures res.0.Ok? ==> res.0.value == |doc| && res.1 == Steps(doc, 0, |doc|, slug)
    ensures res.0.Err? ==> && res.0.error < |doc| && Bad(doc, res.0.error) && NoBad(doc, 0, res.0.error)
                           && res.1 == Steps(doc, 0, res.0.error, slug)
  {
    ProgressStart(doc, 0, 1, None, slug);
    RunMeaning(doc, 0, 1, None, slug, [], "Home", 0, [], None, None, false, res);
    if res.0.Ok? {
      assert Stops(doc, res.0.value, 1);
    } else {
      assert !NoBad(doc, 0, |doc|) by {
        assert Bad(doc, res.0.error);
      }
    }
  }

  /** Each write `Steps` records is the write of a heading in its range, and each heading's write is there. */
  lemma {:induction false} StepsHeadings(doc: seq<Row>, a: nat, b: nat, slug: Slugify)
    requires a <= b <= |doc|
    ensures forall w | w in Steps(doc, a, b, slug) :: exists j | a <= j < b && IsHeading(doc, j) :: w == WriteAt(doc, j, slug)
    ensures forall j | a <= j < b && IsHeading(doc, j) :: WriteAt(doc, j, slug) in Steps(doc, a, b, slug)
    decreases b - a
  {
    if a < b {
      StepsHeadings(doc, a, b - 1, slug);
    }
  }

  /**
   * The page a heading ends up with: when no later heading in `doc[a..b]`
   * has the same folder, its `index.md` holds the page written for it.
   */
  lemma {:induction false} PageOf(fs: FS, doc: seq<Row>, a: nat, b: nat, slug: Slugify, j: nat)
    requires a <= j < b <= |doc| && IsHeading(doc, j)
    requires forall k | j < k < b && IsHeading(doc, k) :: PathOf(doc, k, slug) != PathOf(doc, j, slug)
    ensures HasPage(Perform(fs, Steps(doc, a, b, slug)), WriteAt(doc, j, slug))
    decreases b
  {
    var before := Steps(doc, a, b - 1, slug);
    var v := WriteAt(doc, j, slug);
    if !IsHeading(doc, b - 1) {
      assert Steps(doc, a, b, slug) == before + [];
      assert before + [] == before;
      PageOf(fs, doc, a, b - 1, slug, j);
    } else if b - 1 == j {
      assert Steps(doc, a, b, slug) == before + [v];
      PageWritten(fs, before, v);
    } else {
      var w := WriteAt(doc, b - 1, slug);
      assert Steps(doc, a, b, slug) == before + [w];
      PageOf(fs, doc, a, b - 1, slug, j);
      assert w.dir != v.dir;
      PageKept(fs, before, w, v);
    }
  }

  /** `fs` holds the page `v` writes. */
  predicate HasPage(fs: FS, v: PageWrite) {
    PagePath(v) in fs && fs[PagePath(v)] == File(PageText(v))
  }

  /** The last write leaves its page in place. */
  lemma PageWritten(fs: FS, ws: seq<PageWrite>, v: PageWrite)
    ensures HasPage(Perform(fs, ws + [v]), v)
  {
    PerformSnoc(fs, ws, v);
  }

  /** A last write into another folder keeps a page written before. */
  lemma PageKept(fs: FS, ws: seq<PageWrite>, w: PageWrite, v: PageWrite)
    requires w.dir != v.dir
    requires HasPage(Perform(fs, ws), v)
    ensures HasPage(Perform(fs, ws + [w]), v)
  {
    LaterWrite(Perform(fs, ws), w, v);
    PerformSnoc(fs, ws, w);
  }

  /** A write into another folder leaves a page in place. */
  lemma LaterWrite(fs: FS, w: PageWrite, v: PageWrite)
    requires w.dir != v.dir && PagePath(v) in fs
    ensures var fs' := WriteFile(MakeDirs(fs, w.dir), PagePath(w), PageText(w));
      PagePath(v) in fs' && fs'[PagePath(v)] == fs[PagePath(v)]
  {
    assert PagePath(w)[..|w.dir|] == w.dir;
    assert PagePath(v)[..|v.dir|] == v.dir;
  }

  /** A page once written stays: later writes never remove a path. */
  lemma {:induction false} PerformKeeps(fs: FS, ws: seq<PageWrite>)
    ensures forall q | q in fs :: q in Perform(fs, ws)
    decreases |ws|
  {
    if ws != [] {
      PerformKeeps(fs, ws[..|ws| - 1]);
    }
  }
}
