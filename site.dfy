/**
 * The rest of `script_create_structure.py`: `clean_generated_folders`, which
 * removes the top-level folders named in the outline before a new run, and
 * `main`, which cleans, writes the site's home page and runs
 * `create_structure` on the outline.
 */
module Site {
  import opened Wrappers
  import opened Text
  import opened FileSystem
  import opened Outline
  import opened Structure

  /** `content.md` in the working directory. */
  const ContentFile: Path := ["content.md"]

  /** The home page `index.md` in the working directory. */
  const HomeFile: Path := ["index.md"]

  const HomePage: string :=
    "---\nlayout: home\ntitle: Home\nnav_order: 1\n---\n\n# Welcome to the Documentation\n\nSelect a topic from the navigation to get started.\n"

  /** What reading `content.md` gives: its text, or `None` when there is no such file. */
  function ContentText(fs: FS): (r: Option<string>)
    ensures r.Some? <==> ContentFile in fs && fs[ContentFile].File?
  {
    if ContentFile in fs && fs[ContentFile].File? then Some(fs[ContentFile].text) else None
  }

  // ---------------------------------------------------------------------------
  // clean_generated_folders

  /**
   * The folder the cleaner looks at for one line of the outline: a matched
   * line whose number has no `.` names `base` joined with its title's slug.
   */
  function TopFolder(base: Path, line: string, slug: Slugify): Option<Path> {
    var m := Match(line);
    if m.Some? && '.' !in m.value.number then Some(Join(base, slug(m.value.title))) else None
  }

  /** The folder each line of the outline names, if any. */
  function Tops(base: Path, lines: seq<string>, slug: Slugify): (tops: seq<Option<Path>>)
    ensures |tops| == |lines|
    ensures forall i | 0 <= i < |lines| :: tops[i] == TopFolder(base, lines[i], slug)
  {
    seq(|lines|, i requires 0 <= i < |lines| => TopFolder(base, lines[i], slug))
  }

  /**
   * The cleaning loop over the folders the lines name: each folder that is a
   * directory is removed with `shutil.rmtree`. Removing the working
   * directory itself (a top-level title whose slug is empty, with `base` the
   * working directory) deletes everything beneath it and then fails to
   * remove `.`, raising: `Err` carries the tree left behind.
   */
  function CleanFolders(fs: FS, tops: seq<Option<Path>>): Result<FS, FS>
    decreases |tops|
  {
    if tops == [] then Ok(fs)
    else
      match CleanFolders(fs, tops[..|tops| - 1])
      case Err(e) => Err(e)
      case Ok(fs') => CleanFolder(fs', tops[|tops| - 1])
  }

  /** One pass of the cleaning loop. */
  function CleanFolder(fs: FS, top: Option<Path>): Result<FS, FS> {
    match top
    case None => Ok(fs)
    case Some(p) =>
      if !IsDir(fs, p) then Ok(fs)
      else if p == [] then Err(RemoveTree(fs, p))
      else Ok(RemoveTree(fs, p))
  }

  lemma CleanFoldersSnoc(fs: FS, tops: seq<Option<Path>>, k: nat)
    requires k < |tops| && CleanFolders(fs, tops[..k]).Ok?
    ensures CleanFolders(fs, tops[..k + 1]) == CleanFolder(CleanFolders(fs, tops[..k]).value, tops[k])
  {
    assert tops[..k + 1][..k] == tops[..k];
  }

  /** Once the loop has raised, the lines after it are never looked at. */
  lemma {:induction false} CleanFoldersRaised(fs: FS, tops: seq<Option<Path>>, k: nat)
    requires k <= |tops| && CleanFolders(fs, tops[..k]).Err?
    ensures CleanFolders(fs, tops) == CleanFolders(fs, tops[..k])
    decreases |tops|
  {
    if k < |tops| {
      var init := tops[..|tops| - 1];
      assert init[..k] == tops[..k];
      CleanFoldersRaised(fs, init, k);
    } else {
      assert tops[..k] == tops;
    }
  }

  /** `clean_generated_folders(base)` on the tree `fs`: nothing to do without `content.md`. */
  function Cleaned(fs: FS, base: Path, slug: Slugify): Result<FS, FS> {
    match ContentText(fs)
    case None => Ok(fs)
    case Some(text) => CleanFolders(fs, Tops(base, ReadLines(text), slug))
  }

  /** Some folder the outline names is a directory of `fs` above `q`. */
  ghost predicate Doomed(fs: FS, tops: seq<Option<Path>>, q: Path) {
    exists i | 0 <= i < |tops| :: tops[i].Some? && IsDir(fs, tops[i].value) && IsPrefix(tops[i].value, q)
  }

  /** Some line of the outline names the working directory itself. */
  predicate NamesRoot(tops: seq<Option<Path>>) {
    Some([]) in tops
  }

  /** The tree without everything beneath the folders the outline names. */
  ghost function Survivors(fs: FS, tops: seq<Option<Path>>): FS {
    map q | q in fs && !Doomed(fs, tops, q) :: fs[q]
  }

  /**
   * `clean_generated_folders`, as the script writes it: read `content.md`
   * line by line and remove each top-level folder that exists.
   */
  method CleanGeneratedFolders(fs0: FS, base: Path, slug: Slugify) returns (r: Result<FS, FS>)
    ensures r == Cleaned(fs0, base, slug)
  {
    var text := ContentText(fs0);
    if text.None? {
      return Ok(fs0);
    }
    var lines := ReadLines(text.value);
    ghost var tops := Tops(base, lines, slug);
    var fs := fs0;
    var k := 0;
    while k < |lines|
      invariant k <= |lines|
      invariant CleanFolders(fs0, tops[..k]) == Ok(fs)
      decreases |lines| - k
    {
      CleanFoldersSnoc(fs0, tops, k);
      var m := Match(lines[k]);
      if m.Some? {
        var title := m.value.title;
        var folderName := slug(title);
        if '.' !in m.value.number {
          var pathToRemove := Join(base, folderName);
          if IsDir(fs, pathToRemove) {
            fs := RemoveTree(fs, pathToRemove);
            if pathToRemove == [] {
              CleanFoldersRaised(fs0, tops, k + 1);
              return Err(fs);
            }
          }
        }
      }
      k := k + 1;
    }
    assert tops[..k] == tops;
    return Ok(fs);
  }

  // ---------------------------------------------------------------------------
  // What cleaning removes

  /** Removing the working directory leaves nothing. */
  lemma RemoveRoot(fs: FS)
    ensures RemoveTree(fs, []) == map[]
  {
    assert forall q | q in fs :: IsPrefix([], q);
  }

  /** `Doomed` for the outline with one more line. */
  lemma DoomedSnoc(fs: FS, tops: seq<Option<Path>>, q: Path)
    requires tops != []
    ensures var p := tops[|tops| - 1];
      Doomed(fs, tops, q)
      <==> Doomed(fs, tops[..|tops| - 1], q) || (p.Some? && IsDir(fs, p.value) && IsPrefix(p.value, q))
  {
    var init := tops[..|tops| - 1];
    if Doomed(fs, init, q) {
      var i :| 0 <= i < |init| && init[i].Some? && IsDir(fs, init[i].value) && IsPrefix(init[i].value, q);
      assert tops[i] == init[i];
    }
    if Doomed(fs, tops, q) {
      var i :| 0 <= i < |tops| && tops[i].Some? && IsDir(fs, tops[i].value) && IsPrefix(tops[i].value, q);
      if i < |init| {
        assert tops[i] == init[i];
      }
    }
  }

  /**
   * What the cleaning loop leaves: unless some line names the working
   * directory itself, everything except what lies beneath a named folder that
   * is a directory; otherwise it raises, leaving nothing.
   */
  lemma {:induction false} CleanFoldersMeaning(fs: FS, tops: seq<Option<Path>>)
    ensures !NamesRoot(tops) ==> CleanFolders(fs, tops) == Ok(Survivors(fs, tops))
    ensures NamesRoot(tops) ==> CleanFolders(fs, tops) == Err(map[])
    decreases |tops|
  {
    if tops == [] {
      assert Survivors(fs, tops) == fs;
    } else {
      var init := tops[..|tops| - 1];
      var last := tops[|tops| - 1];
      CleanFoldersMeaning(fs, init);
      assert tops == init + [last];
      if !NamesRoot(init) {
        var s := Survivors(fs, init);
        if last == Some([]) {
          RemoveRoot(s);
        } else {
          CleanFolderMeaning(fs, tops);
        }
      }
    }
  }

  /** The step of `CleanFoldersMeaning` for a last line that does not name the working directory. */
  lemma CleanFolderMeaning(fs: FS, tops: seq<Option<Path>>)
    requires tops != [] && tops[|tops| - 1] != Some([])
    ensures CleanFolder(Survivors(fs, tops[..|tops| - 1]), tops[|tops| - 1]) == Ok(Survivors(fs, tops))
  {
    var init := tops[..|tops| - 1];
    var s := Survivors(fs, init);
    var s' := Survivors(fs, tops);
    var p := tops[|tops| - 1];
    forall q ensures Doomed(fs, tops, q) <==> Doomed(fs, init, q) || (p.Some? && IsDir(fs, p.value) && IsPrefix(p.value, q)) {
      DoomedSnoc(fs, tops, q);
    }
    if p.Some? {
      if IsDir(s, p.value) {
        assert RemoveTree(s, p.value) == s';
      } else if IsDir(fs, p.value) {
        // The folder is already gone: a folder above it was removed, and with it everything beneath.
        var i :| 0 <= i < |init| && init[i].Some? && IsDir(fs, init[i].value) && IsPrefix(init[i].value, p.value);
        forall q | IsPrefix(p.value, q) ensures Doomed(fs, init, q) {
          PrefixTransitive(init[i].value, p.value, q);
        }
        assert s == s';
      } else {
        assert s == s';
      }
    } else {
      assert s == s';
    }
  }

  /** Cleaning twice removes nothing more than cleaning once. */
  lemma CleanTwice(fs: FS, tops: seq<Option<Path>>)
    requires !NamesRoot(tops)
    ensures CleanFolders(Survivors(fs, tops), tops) == Ok(Survivors(fs, tops))
  {
    var s := Survivors(fs, tops);
    CleanFoldersMeaning(fs, tops);
    CleanFoldersMeaning(s, tops);
    forall q, i | q in s && 0 <= i < |tops| && tops[i].Some? && IsDir(s, tops[i].value)
      ensures !IsPrefix(tops[i].value, q)
    {
      assert tops[i] != Some([]);
      assert IsDir(fs, tops[i].value);
    }
    assert Survivors(s, tops) == s;
  }

  /** The folders the cleaner names are those of the outline's top-level headings, as `Parse` reads them. */
  lemma TopFolderLevel(base: Path, line: string, slug: Slugify)
    ensures var row := ParseLine(line);
      TopFolder(base, line, slug)
      == if row.heading.Some? && row.level == 1 then Some(Join(base, slug(row.heading.value.title))) else None
  {
    if Match(line).Some? {
      LevelOneIffNoDot(Match(line).value.number);
    }
  }

  /** `tops` are the folders the cleaner names for the lines `doc` is parsed from. */
  ghost predicate TopsOf(tops: seq<Option<Path>>, doc: seq<Row>, slug: Slugify) {
    && |tops| == |doc|
    && forall i | 0 <= i < |doc| ::
         tops[i] == if IsHeading(doc, i) && LevelAt(doc, i) == 1 then Some(Join([], slug(TitleAt(doc, i)))) else None
  }

  lemma TopsOfParse(lines: seq<string>, slug: Slugify)
    ensures TopsOf(Tops([], lines, slug), Parse(lines), slug)
  {
    forall i | 0 <= i < |lines| {
      TopFolderLevel([], lines[i], slug);
    }
  }

  /**
   * A line names a folder to clean exactly when it is a top-level heading,
   * and that folder is the one `create_structure` gives the heading.
   */
  lemma CleanNamesTopFolders(doc: seq<Row>, tops: seq<Option<Path>>, slug: Slugify, i: nat)
    requires TopsOf(tops, doc, slug) && WellParsed(doc) && i < |doc|
    ensures tops[i].Some? <==> IsHeading(doc, i) && LevelAt(doc, i) == 1
    ensures tops[i].Some? ==> tops[i].value == PathOf(doc, i, slug)
  {
    if IsHeading(doc, i) && LevelAt(doc, i) == 1 {
      TopLevelPath(doc, i, slug);
    }
  }

  /**
   * Every folder `create_structure` writes for a heading that is not past
   * the first bad one lies beneath a folder that cleaning the same outline
   * names: its top-level ancestor's.
   */
  lemma {:induction false} CleanCoversPages(doc: seq<Row>, tops: seq<Option<Path>>, slug: Slugify, j: nat)
    requires TopsOf(tops, doc, slug) && WellParsed(doc)
    requires IsHeading(doc, j) && NoBad(doc, 0, j + 1)
    ensures exists i | 0 <= i <= j :: tops[i].Some? && IsPrefix(tops[i].value, PathOf(doc, j, slug))
    decreases j
  {
    ParentLevel(doc, j);
    match Parent(doc, j)
    case None =>
      TopLevelPath(doc, j, slug);
      assert tops[j].Some? && IsPrefix(tops[j].value, PathOf(doc, j, slug));
    case Some(p) =>
      CleanCoversPages(doc, tops, slug, p);
      var i :| 0 <= i <= p && tops[i].Some? && IsPrefix(tops[i].value, PathOf(doc, p, slug));
      var up := PathOf(doc, p, slug);
      assert IsPrefix(up, PathOf(doc, j, slug));
      PrefixTransitive(tops[i].value, up, PathOf(doc, j, slug));
  }

  // ---------------------------------------------------------------------------
  // main

  /** How a run of the script ends. */
  datatype Outcome =
    | Built                   // the structure was created and the success message printed
    | NoContent               // `content.md` could not be opened: the error message is printed
    | CleanRaised             // removing the working directory itself raised in `clean_generated_folders`
    | StructureRaised(line: nat)  // `create_structure` raised `UnboundLocalError` at this outline line

  /** The first bad heading of the outline from `k` on; `|doc|` when there is none. */
  function FirstBad(doc: seq<Row>, k: nat): (n: nat)
    requires k <= |doc|
    ensures k <= n <= |doc| && NoBad(doc, k, n) && (n < |doc| ==> Bad(doc, n))
    decreases |doc| - k
  {
    if k == |doc| then k else if Bad(doc, k) then k else FirstBad(doc, k + 1)
  }

  /** What the script does to the tree `fs`: cleaning, the home page and then one page per heading up to the first bad one. */
  ghost function Script(fs: FS, slug: Slugify): (Outcome, FS) {
    match Cleaned(fs, [], slug)
    case Err(e) => (CleanRaised, e)
    case Ok(c) =>
      match ContentText(c)
      case None => (NoContent, c)
      case Some(text) =>
        var doc := Parse(ReadLines(text));
        var n := FirstBad(doc, 0);
        (if n < |doc| then StructureRaised(n) else Built, Perform(WriteFile(c, HomeFile, HomePage), Steps(doc, 0, n, slug)))
  }

  lemma FirstBadUnique(doc: seq<Row>, n: nat)
    requires n <= |doc| && NoBad(doc, 0, n) && (n < |doc| ==> Bad(doc, n))
    ensures FirstBad(doc, 0) == n
  {
  }

  /** `main()`: clean, read `content.md`, write the home page and create the structure. */
  method RunScript(fs0: FS, slug: Slugify) returns (out: Outcome, fs: FS)
    ensures (out, fs) == Script(fs0, slug)
  {
    var cleaned := CleanGeneratedFolders(fs0, [], slug);
    if cleaned.Err? {
      return CleanRaised, cleaned.error;
    }
    fs := cleaned.value;
    var text := ContentText(fs);
    if text.None? {
      return NoContent, fs;
    }
    var lines := ReadLines(text.value);
    fs := WriteFile(fs, HomeFile, HomePage);
    ghost var home := fs;
    var rows := Parse(lines);
    var r;
    ghost var acc;
    r, fs, acc := CreateStructure(rows, [], "Home", 1, fs, slug, rows, 0);
    CreateStructureOutcome(rows, slug, (r, acc));
    if r.Err? {
      FirstBadUnique(rows, r.error);
      return StructureRaised(r.error), fs;
    }
    FirstBadUnique(rows, |rows|);
    return Built, fs;
  }

  // ---------------------------------------------------------------------------
  // What a run leaves behind

  /** Cleaning never removes `content.md`, so `main` reads the outline the cleaner read. */
  lemma ContentKept(fs: FS, slug: Slugify)
    requires Cleaned(fs, [], slug).Ok?
    ensures ContentText(Cleaned(fs, [], slug).value) == ContentText(fs)
  {
    if ContentText(fs).Some? {
      var tops := Tops([], ReadLines(ContentText(fs).value), slug);
      CleanFoldersMeaning(fs, tops);
      SurvivorsKeepContent(fs, tops);
    }
  }

  /**
   * Cleaning what a successful cleaning left changes nothing: the outline it
   * reads is the same, and the folders it names are already gone.
   */
  lemma CleanedIdempotent(fs: FS, slug: Slugify)
    requires Cleaned(fs, [], slug).Ok?
    ensures Cleaned(Cleaned(fs, [], slug).value, [], slug) == Cleaned(fs, [], slug)
  {
    ContentKept(fs, slug);
    if ContentText(fs).Some? {
      var tops := Tops([], ReadLines(ContentText(fs).value), slug);
      CleanFoldersMeaning(fs, tops);
      CleanTwice(fs, tops);
    }
  }

  lemma SurvivorsKeepContent(fs: FS, tops: seq<Option<Path>>)
    requires !NamesRoot(tops) && ContentText(fs).Some?
    ensures ContentText(Survivors(fs, tops)) == ContentText(fs)
  {
    forall i | 0 <= i < |tops| && tops[i].Some? && IsDir(fs, tops[i].value)
      ensures !IsPrefix(tops[i].value, ContentFile)
    {
      assert tops[i] != Some([]);
      assert tops[i].value != ContentFile;
      assert ContentFile[..1] == ContentFile;
    }
    assert !Doomed(fs, tops, ContentFile);
  }

  /** A file that no write in `ws` targets keeps its contents. */
  lemma {:induction false} PerformKeepsFile(fs: FS, ws: seq<PageWrite>, p: Path)
    requires p in fs && forall k | 0 <= k < |ws| :: PagePath(ws[k]) != p
    ensures p in Perform(fs, ws) && Perform(fs, ws)[p] == fs[p]
    decreases |ws|
  {
    if ws != [] {
      var init := ws[..|ws| - 1];
      PerformKeepsFile(fs, init, p);
      PerformSnoc(fs, init, ws[|ws| - 1]);
      assert init + [ws[|ws| - 1]] == ws;
    }
  }

  /**
   * After a run that got past cleaning and found `content.md`, the home page
   * is still there: a page could replace it only for a heading whose folder
   * is the working directory, and cleaning raises on such an outline first.
   */
  lemma HomePageKept(fs0: FS, slug: Slugify)
    requires Script(fs0, slug).0 !in {CleanRaised, NoContent}
    ensures HomeFile in Script(fs0, slug).1 && Script(fs0, slug).1[HomeFile] == File(HomePage)
  {
    var c := Cleaned(fs0, [], slug).value;
    ContentKept(fs0, slug);
    var lines := ReadLines(ContentText(c).value);
    var tops := Tops([], lines, slug);
    CleanFoldersMeaning(fs0, tops);
    TopsOfParse(lines, slug);
    NoHomeWrite(Parse(lines), tops, slug, FirstBad(Parse(lines), 0));
    PerformKeepsFile(WriteFile(c, HomeFile, HomePage), Steps(Parse(lines), 0, FirstBad(Parse(lines), 0), slug), HomeFile);
  }

  /** No page written before the first bad heading lands on the home page, unless the outline names the working directory. */
  lemma NoHomeWrite(doc: seq<Row>, tops: seq<Option<Path>>, slug: Slugify, n: nat)
    requires TopsOf(tops, doc, slug) && WellParsed(doc) && !NamesRoot(tops)
    requires n <= |doc| && NoBad(doc, 0, n)
    ensures forall k | 0 <= k < |Steps(doc, 0, n, slug)| :: PagePath(Steps(doc, 0, n, slug)[k]) != HomeFile
  {
    var ws := Steps(doc, 0, n, slug);
    StepsHeadings(doc, 0, n, slug);
    forall k | 0 <= k < |ws| ensures PagePath(ws[k]) != HomeFile {
      assert ws[k] in ws;
      var j :| 0 <= j < n && IsHeading(doc, j) && ws[k] == WriteAt(doc, j, slug);
      CleanCoversPages(doc, tops, slug, j);
      var i :| 0 <= i <= j && tops[i].Some? && IsPrefix(tops[i].value, PathOf(doc, j, slug));
      assert tops[i] != Some([]);
      assert |PagePath(ws[k])| > 1;
    }
  }

  /**
   * After a run that got past cleaning and found `content.md`, each heading
   * before the first bad one whose folder no later such heading shares has
   * the page `create_structure` writes for it.
   */
  lemma ScriptPages(fs0: FS, slug: Slugify, j: nat)
    requires Script(fs0, slug).0 !in {CleanRaised, NoContent}
    requires var doc := Parse(ReadLines(ContentText(fs0).value));
      && j < FirstBad(doc, 0) && IsHeading(doc, j)
      && forall k | j < k < FirstBad(doc, 0) && IsHeading(doc, k) :: PathOf(doc, k, slug) != PathOf(doc, j, slug)
    ensures var w := WriteAt(Parse(ReadLines(ContentText(fs0).value)), j, slug);
      PagePath(w) in Script(fs0, slug).1 && Script(fs0, slug).1[PagePath(w)] == File(PageText(w))
  {
    ContentKept(fs0, slug);
    var c := Cleaned(fs0, [], slug).value;
    var doc := Parse(ReadLines(ContentText(fs0).value));
    PageOf(WriteFile(c, HomeFile, HomePage), doc, 0, FirstBad(doc, 0), slug, j);
  }

  /**
   * An outline with a top-level title whose slug is empty makes the cleaner
   * remove the working directory: everything is deleted and the run stops
   * there.
   */
  lemma RootTitleWipes(fs0: FS, slug: Slugify)
    requires ContentText(fs0).Some? && NamesRoot(Tops([], ReadLines(ContentText(fs0).value), slug))
    ensures Script(fs0, slug) == (CleanRaised, map[])
  {
    CleanFoldersMeaning(fs0, Tops([], ReadLines(ContentText(fs0).value), slug));
  }
}
