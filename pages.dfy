/**
 * How `generate_content.py` reads a page and decides what to ask for: the
 * page's front matter and body (`get_file_data`), the prompt kind chosen
 * from the path and the front matter, the user prompt built for each kind,
 * and the navigation link put after the generated text.
 *
 * YAML is an input: a loader from the front-matter text to a document, or
 * `None` when `yaml.safe_load` raises. A document is a mapping of keys to
 * values or a single non-mapping value; a value is text or anything else,
 * of which only its truth value and its `str()` text matter here.
 */
module Pages {
  import opened Wrappers
  import opened Text
  import opened FileSystem
  import opened Outline
  import opened PageFormat
  import opened Paths

  datatype Value = Str(s: string) | Other(truthy: bool, shown: string)

  datatype Yaml = Mapping(fields: map<string, Value>) | Scalar(v: Value)

  type YamlLoader = string -> Option<Yaml>

  /** Python's truth value of a front-matter value. */
  predicate Truthy(v: Value) {
    if v.Str? then v.s != "" else v.truthy
  }

  /** Python's truth value of a loaded document: an empty mapping is false. */
  predicate YamlTruthy(y: Yaml) {
    if y.Mapping? then |y.fields| > 0 else Truthy(y.v)
  }

  /** `d.get(key, default)` */
  function Get(fields: map<string, Value>, key: string, default: Value): Value {
    if key in fields then fields[key] else default
  }

  /** What an f-string shows for a value. */
  function Shown(v: Value): string {
    if v.Str? then v.s else v.shown
  }

  /**
   * `get_file_data(p)`: the loaded front matter and the stripped body, or
   * `None` when the file cannot be read, the front-matter pattern does not
   * match or the YAML does not load. Reading in text mode translates line
   * ends first.
   */
  function ReadPage(fs: FS, p: string, load: YamlLoader): (r: Option<(Yaml, string)>)
    ensures r.Some? ==> p != "" && IsFileAt(fs, p) && Trimmed(r.value.1)
    ensures r.Some? ==> var split := SplitFrontMatter(UniversalNewlines(fs[Resolve(p)].text));
      split.Some? && load(split.value.0) == Some(r.value.0) && r.value.1 == split.value.1
  {
    if p == "" || !IsFileAt(fs, p) then None
    else
      match SplitFrontMatter(UniversalNewlines(fs[Resolve(p)].text))
      case None => None
      case Some(parts) =>
        match load(parts.0)
        case None => None
        case Some(y) => Some((y, parts.1))
  }

  // ---------------------------------------------------------------------------
  // The title patterns

  /** `[\d\.]` */
  predicate IsNumberChar(c: char) {
    IsDigit(c) || c == '.'
  }

  /** End of the longest run of digits and dots starting at `i`. */
  function NumberRunEnd(s: string, i: nat): (j: nat)
    requires i <= |s|
    ensures i <= j <= |s|
    ensures forall k | i <= k < j :: IsNumberChar(s[k])
    ensures j == |s| || !IsNumberChar(s[j])
    decreases |s| - i
  {
    if i < |s| && IsNumberChar(s[i]) then NumberRunEnd(s, i + 1) else i
  }

  /** `re.match(r'([\d\.]+)', title).group(1)`, or `""` when it does not match. */
  function LeadingNumber(title: string): (n: string)
    ensures StartsWith(title, n)
    ensures forall k | 0 <= k < |n| :: IsNumberChar(n[k])
    ensures |n| < |title| ==> !IsNumberChar(title[|n|])
  {
    title[..NumberRunEnd(title, 0)]
  }

  /** `re.sub(r'[\d\.]+\s*', '', s[i:])`: every run of digits and dots goes, with the whitespace after it. */
  function RemoveNumberRuns(s: string, i: nat): (r: string)
    requires i <= |s|
    ensures forall k | 0 <= k < |r| :: !IsNumberChar(r[k])
    decreases |s| - i
  {
    if i == |s| then ""
    else if IsNumberChar(s[i]) then RemoveNumberRuns(s, SpaceRunEnd(s, NumberRunEnd(s, i)))
    else [s[i]] + RemoveNumberRuns(s, i + 1)
  }

  predicate IsQ(c: char) { c == 'Q' || c == 'q' }
  predicate IsA(c: char) { c == 'A' || c == 'a' }

  /**
   * Where `[\d\.]+\s*Q&A\s*:?\s*` (case-insensitive) matches at `i`, if
   * it does: the greedy runs leave nothing to backtrack over.
   */
  function QaMarkEnd(s: string, i: nat): (r: Option<nat>)
    requires i <= |s|
    ensures r.Some? ==> i < r.value <= |s|
  {
    if i < |s| && IsNumberChar(s[i]) then
      var k := SpaceRunEnd(s, NumberRunEnd(s, i));
      if k + 3 <= |s| && IsQ(s[k]) && s[k + 1] == '&' && IsA(s[k + 2]) then
        var e1 := SpaceRunEnd(s, k + 3);
        var e2 := if e1 < |s| && s[e1] == ':' then e1 + 1 else e1;
        Some(SpaceRunEnd(s, e2))
      else None
    else None
  }

  /** `re.sub(r'[\d\.]+\s*Q&A\s*:?\s*', '', s[i:], flags=re.IGNORECASE)` */
  function RemoveQaMarks(s: string, i: nat): (r: string)
    requires i <= |s|
    ensures |r| <= |s| - i
    decreases |s| - i
  {
    if i == |s| then ""
    else
      match QaMarkEnd(s, i)
      case Some(e) => RemoveQaMarks(s, e)
      case None => [s[i]] + RemoveQaMarks(s, i + 1)
  }

  // ---------------------------------------------------------------------------
  // Prompt kinds and user prompts

  datatype Kind = Section | Overview | Topic | Faq

  /** The key of the kind's master prompt. */
  function KindName(k: Kind): (name: string)
    ensures name in {"section", "overview", "topic", "faq"}
  {
    match k
    case Section => "section"
    case Overview => "overview"
    case Topic => "topic"
    case Faq => "faq"
  }

  /** Why an item was not processed; each is an exception the driver catches. */
  datatype Failure =
    | NotFound          // the file does not exist
    | NoFrontMatter     // no front matter could be read, or it is empty
    | NotAMapping       // `front_matter.get` on a document that is not a mapping
    | TitleNotText      // a regular expression applied to a title that is not text
    | NoNumber          // an `index.md` title without a leading number
    | ListingFailed     // `os.listdir` on the page's folder raised
    | SubPageNotAMapping  // a child page's document is not a mapping
    | SubTitleNotText   // `", ".join` met a child title that is not text
    | UnknownKind       // neither `qa.md` nor `index.md`
    | EmptyReply        // the model returned nothing

  const NoSummary: string := "відсутній"
  const NoSubtopics: string := "відсутні"
  const SummaryLimit: nat := 4000
  const Separator: string := "\n\n* * *\n\n"
  const BackLink: string := Separator + "[Повернутись до теорії]" + "(./index.md)\n"
  const QaLink: string := Separator + "[Перейти до Q&A]" + "(./qa.md)\n"

  /** `s[:n]` */
  function Truncate(s: string, n: nat): (r: string)
    ensures |r| <= n && StartsWith(s, r)
    ensures |s| <= n ==> r == s
  {
    if |s| <= n then s else s[..n]
  }

  /** The text of the `index.md` next to a Q&A page, or the default when there is none with a body. */
  function RelatedSummary(fs: FS, clean: string, load: YamlLoader): (r: string)
    ensures r != ""
  {
    var related := JoinName(Dirname(clean), "index.md");
    if Exists(fs, related) then
      match ReadPage(fs, related, load)
      case Some((_, body)) => if body != "" then body else NoSummary
      case None => NoSummary
    else NoSummary
  }

  function FaqPrompt(topicTitle: string, summary: string): string {
    "[TOPIC_TITLE]: \"" + topicTitle + "\"\n[RELATED_SUMMARY]: \"" + Truncate(summary, SummaryLimit) + "\""
  }

  function SectionPrompt(fullTitle: string, subTopics: string): string {
    "Напиши дуже короткий оглядовий текст (1 абзац) для великого розділу '" + fullTitle
      + "'. Його основні підрозділи: " + subTopics + "."
  }

  function OverviewPrompt(fullTitle: string, subTopics: string): string {
    "Напиши змістовний вступний текст (2-4 абзаци) для розділу '" + fullTitle
      + "'. Поясни, чому ця тема важлива, і коротко представ її підтеми: " + subTopics + "."
  }

  function TopicPrompt(number: string, topicTitle: string, parentTitle: string): string {
    "[TOPIC_NUMBER]: \"" + number + "\"\n[TOPIC_TITLE]: \"" + topicTitle + "\"\n[PARENT_TOPIC_TITLE]: \"" + parentTitle + "\""
  }

  /**
   * What the loop over the sorted child folders of a section finds: the
   * title of each child `index.md` whose front matter loads and is not
   * empty, in folder order.
   */
  function SubTitles(fs: FS, dir: string, names: seq<string>, load: YamlLoader): (r: Result<seq<Value>, Failure>)
    ensures r.Ok? ==> |r.value| <= |names|
    ensures r.Err? ==> r.error == SubPageNotAMapping
  {
    if names == [] then Ok([])
    else
      match SubTitle(fs, dir, names[0], load)
      case Err(e) => Err(e)
      case Ok(here) =>
        match SubTitles(fs, dir, names[1..], load)
        case Err(e) => Err(e)
        case Ok(rest) => Ok((if here.Some? then [here.value] else []) + rest)
  }

  /** One pass of that loop: the child's title, nothing, or the error `.get` raises on a document that is not a mapping. */
  function SubTitle(fs: FS, dir: string, name: string, load: YamlLoader): (r: Result<Option<Value>, Failure>)
    ensures r.Err? ==> r.error == SubPageNotAMapping
  {
    var p := JoinName(JoinName(dir, name), "index.md");
    if !Exists(fs, p) then Ok(None)
    else
      match ReadPage(fs, p, load)
      case None => Ok(None)
      case Some((y, _)) =>
        if !YamlTruthy(y) then Ok(None)
        else if y.Scalar? then Err(SubPageNotAMapping)
        else Ok(Some(Get(y.fields, "title", Str(""))))
  }

  /** `filter(None, titles)`, which `", ".join` accepts only when every value left is text. */
  function TitleTexts(vs: seq<Value>): (r: Option<seq<string>>)
    ensures r.Some? ==> |r.value| <= |vs| && forall k | 0 <= k < |r.value| :: r.value[k] != ""
    ensures r.None? <==> exists k | 0 <= k < |vs| :: Truthy(vs[k]) && !vs[k].Str?
  {
    if vs == [] then Some([])
    else
      var rest := TitleTexts(vs[1..]);
      assert forall k | 1 <= k < |vs| :: vs[k] == vs[1..][k - 1];
      if !Truthy(vs[0]) then rest
      else if !vs[0].Str? then None
      else if rest.None? then None
      else Some([vs[0].s] + rest.value)
  }

  /** The sub-topic text of a section or overview prompt. */
  function SubTopics(fs: FS, clean: string, load: YamlLoader): (r: Result<string, Failure>)
    ensures r.Err? ==> r.error in {ListingFailed, SubPageNotAMapping, SubTitleNotText}
  {
    var dir := Dirname(clean);
    match SubDirs(fs, dir)
    case None => Err(ListingFailed)
    case Some(names) =>
      match SubTitles(fs, dir, SortedNames(names), load)
      case Err(e) => Err(e)
      case Ok(vs) =>
        if vs == [] then Ok(NoSubtopics)
        else
          match TitleTexts(vs)
          case None => Err(SubTitleNotText)
          case Some(ts) => Ok(JoinWith(ts, ", "))
  }

  /** Whether the front matter asks for children: `front_matter.get('has_children', False)`. */
  predicate HasChildren(fields: map<string, Value>) {
    Truthy(Get(fields, "has_children", Other(false, "False")))
  }

  /** The prompt kind of a Q&A page and its user prompt. */
  function ClassifyFaq(fs: FS, clean: string, fm: Yaml, load: YamlLoader): (r: Result<(Kind, string), Failure>) {
    if !fm.Mapping? then Err(NotAMapping)
    else
      var title := Get(fm.fields, "title", Str(""));
      if !title.Str? then Err(TitleNotText)
      else
        var topicTitle := Strip(RemoveQaMarks(title.s, 0));
        Ok((Faq, FaqPrompt(topicTitle, RelatedSummary(fs, clean, load))))
  }

  /** The prompt kind of an `index.md` page and its user prompt. */
  function ClassifyIndex(fs: FS, clean: string, fm: Yaml, load: YamlLoader): (r: Result<(Kind, string), Failure>) {
    if !fm.Mapping? then Err(NotAMapping)
    else
      var title := Get(fm.fields, "title", Str(""));
      if !title.Str? then Err(TitleNotText)
      else
        var number := LeadingNumber(title.s);
        if number == "" then Err(NoNumber)
        else if HasChildren(fm.fields) then
          match SubTopics(fs, clean, load)
          case Err(e) => Err(e)
          case Ok(subs) =>
            if Level(number) <= 2 then Ok((Section, SectionPrompt(title.s, subs)))
            else Ok((Overview, OverviewPrompt(title.s, subs)))
        else
          var topicTitle := Strip(RemoveNumberRuns(title.s, 0));
          var parent := Shown(Get(fm.fields, "parent", Str("N/A")));
          Ok((Topic, TopicPrompt(number, topicTitle, parent)))
  }

  /** The prompt kind and user prompt for a page: a Q&A page first, then an `index.md`. */
  function Classify(fs: FS, clean: string, fm: Yaml, load: YamlLoader): (r: Result<(Kind, string), Failure>)
    ensures r.Ok? ==> fm.Mapping? && (EndsWith(clean, "qa.md") || EndsWith(clean, "index.md"))
  {
    if EndsWith(clean, "qa.md") then ClassifyFaq(fs, clean, fm, load)
    else if EndsWith(clean, "index.md") then ClassifyIndex(fs, clean, fm, load)
    else Err(UnknownKind)
  }

  /** The navigation link put after the generated text. */
  function LinkSuffix(fs: FS, clean: string): string {
    if EndsWith(clean, "qa.md") then BackLink
    else if EndsWith(clean, "index.md") && Exists(fs, JoinName(Dirname(clean), "qa.md")) then QaLink
    else ""
  }

  // ---------------------------------------------------------------------------
  // Lemmas

  /** Neither link holds a carriage return. */
  lemma LinksBreakFree()
    ensures '\r' !in BackLink && '\r' !in QaLink
  {
    assert '\r' !in Separator;
    assert '\r' !in "[Повернутись до теорії]" && '\r' !in "(./index.md)\n";
    assert '\r' !in "[Перейти до Q&A]" && '\r' !in "(./qa.md)\n";
  }

  /** The topic title of a page without children holds no digit and no `.`. */
  lemma TopicTitleClean(title: string)
    ensures var t := Strip(RemoveNumberRuns(title, 0));
      forall k | 0 <= k < |t| :: !IsDigit(t[k]) && t[k] != '.'
  {
    var r := RemoveNumberRuns(title, 0);
    StripSlice(r);
    var t := Strip(r);
    forall k | 0 <= k < |t| ensures !IsDigit(t[k]) && t[k] != '.' {
      assert t[k] in r;
    }
  }

  /** Without digits or dots there is no Q&A marker to remove. */
  lemma {:induction false} QaMarksNone(s: string, i: nat)
    requires i <= |s|
    requires forall k | i <= k < |s| :: !IsNumberChar(s[k])
    ensures RemoveQaMarks(s, i) == s[i..]
    decreases |s| - i
  {
    if i < |s| {
      QaMarksNone(s, i + 1);
      assert s[i..] == [s[i]] + s[i + 1..];
    }
  }

  /** The summary in a Q&A prompt is the start of the related text, at most 4000 characters of it. */
  lemma FaqPromptSummary(topicTitle: string, summary: string)
    ensures var part := Truncate(summary, SummaryLimit);
      && EndsWith(FaqPrompt(topicTitle, summary), "[RELATED_SUMMARY]: \"" + part + "\"")
      && |part| <= 4000 && StartsWith(summary, part)
      && (|summary| <= 4000 ==> part == summary)
  {
    var part := Truncate(summary, SummaryLimit);
    var tail := "[RELATED_SUMMARY]: \"" + part + "\"";
    assert FaqPrompt(topicTitle, summary) == ("[TOPIC_TITLE]: \"" + topicTitle + "\"\n") + tail;
  }

  /** A Q&A page with no `index.md` beside it is summarised by the default text. */
  lemma NoRelatedPage(fs: FS, clean: string, load: YamlLoader)
    requires !Exists(fs, JoinName(Dirname(clean), "index.md"))
    ensures RelatedSummary(fs, clean, load) == NoSummary
  {
  }

  /** A Q&A page is classified as such exactly when its front matter is a mapping with a text title. */
  lemma ClassifyQa(fs: FS, clean: string, fm: Yaml, load: YamlLoader)
    requires EndsWith(clean, "qa.md")
    ensures var r := Classify(fs, clean, fm, load);
      (r.Ok? <==> fm.Mapping? && Get(fm.fields, "title", Str("")).Str?) && (r.Ok? ==> r.value.0 == Faq)
  {
  }

  /**
   * An `index.md` page with a text title: no leading number is an error, no
   * children makes a topic, and with children the number's level picks a
   * section (one or two parts) or an overview.
   */
  lemma ClassifyIndexKinds(fs: FS, clean: string, fm: Yaml, load: YamlLoader)
    requires !EndsWith(clean, "qa.md") && EndsWith(clean, "index.md")
    requires fm.Mapping? && Get(fm.fields, "title", Str("")).Str?
    ensures var r := Classify(fs, clean, fm, load);
      var n := LeadingNumber(Get(fm.fields, "title", Str("")).s);
      && (n == "" ==> r == Err(NoNumber))
      && (n != "" && !HasChildren(fm.fields) ==> r.Ok? && r.value.0 == Topic)
      && (n != "" && HasChildren(fm.fields) && r.Ok? ==>
            (r.value.0 == Section <==> CountChar(n, '.') <= 1)
            && (r.value.0 == Overview <==> CountChar(n, '.') > 1))
  {
    SplitCount(LeadingNumber(Get(fm.fields, "title", Str("")).s), '.');
  }

  /** Any other page, or an `index.md` without a mapping and a text title, is rejected. */
  lemma ClassifyRejects(fs: FS, clean: string, fm: Yaml, load: YamlLoader)
    requires !EndsWith(clean, "qa.md")
    ensures var r := Classify(fs, clean, fm, load);
      && (EndsWith(clean, "index.md") && !(fm.Mapping? && Get(fm.fields, "title", Str("")).Str?) ==>
            r.Err? && r.error in {NotAMapping, TitleNotText})
      && (!EndsWith(clean, "index.md") ==> r == Err(UnknownKind))
  {
  }

  /**
   * What a Q&A page asks when the `index.md` beside it has a body: the prompt
   * ends with the first 4000 characters of that body as the related summary,
   * and a title without digits or dots is passed on merely stripped.
   */
  lemma FaqRequest(fs: FS, clean: string, fm: Yaml, load: YamlLoader, body: string)
    requires EndsWith(clean, "qa.md") && fm.Mapping? && Get(fm.fields, "title", Str("")).Str?
    requires Exists(fs, JoinName(Dirname(clean), "index.md"))
    requires ReadPage(fs, JoinName(Dirname(clean), "index.md"), load).Some?
    requires ReadPage(fs, JoinName(Dirname(clean), "index.md"), load).value.1 == body && body != ""
    ensures var r := Classify(fs, clean, fm, load);
      && r.Ok? && r.value.0 == Faq
      && EndsWith(r.value.1, "[RELATED_SUMMARY]: \"" + Truncate(body, SummaryLimit) + "\"")
    ensures var title := Get(fm.fields, "title", Str("")).s;
      (forall k | 0 <= k < |title| :: !IsNumberChar(title[k])) ==>
        StartsWith(Classify(fs, clean, fm, load).value.1, "[TOPIC_TITLE]: \"" + Strip(title) + "\"\n")
  {
    var title := Get(fm.fields, "title", Str("")).s;
    var topicTitle := Strip(RemoveQaMarks(title, 0));
    assert RelatedSummary(fs, clean, load) == body;
    FaqPromptSummary(topicTitle, body);
    var head := "[TOPIC_TITLE]: \"" + topicTitle + "\"\n";
    assert FaqPrompt(topicTitle, body) == head + ("[RELATED_SUMMARY]: \"" + Truncate(body, SummaryLimit) + "\"");
    if forall k | 0 <= k < |title| :: !IsNumberChar(title[k]) {
      QaMarksNone(title, 0);
      assert title[0..] == title;
    }
  }
}
