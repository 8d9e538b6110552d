/**
 * `main` of `generate_content.py`: after the configuration check it reads
 * the processing list and works through it one item at a time. Each item is
 * popped off the front of the queue; its page is read, classified and sent
 * to the model with the master prompt of its kind, and the reply, followed
 * by a navigation link, replaces the page body. A failed item is appended to
 * the fail log; either way the list file is rewritten with what is left.
 *
 * The model is an input: `reply(k, master, user)` is the answer for the
 * `k`-th item of the queue (counted whether or not the item gets as far as
 * calling the model), `""` when the call fails. `yaml.dump` is an
 * input too.
 */
module Driver {
  import opened Wrappers
  import opened Text
  import opened FileSystem
  import opened PageFormat
  import opened Paths
  import opened QueueFiles
  import opened Configuration
  import opened Pages

  type Replier = (nat, string, string) -> string

  type YamlDumper = map<string, Value> -> string

  /** `file_path_from_list.lstrip('/')` */
  function CleanPath(item: string): string {
    LStripChar(item, '/')
  }

  /** Everything the driver works out before calling the model: the front matter, the kind and the user prompt. */
  function Request(fs: FS, clean: string, load: YamlLoader): (r: Result<(Yaml, Kind, string), Failure>)
    ensures Prepared(fs, clean, r)
  {
    if !Exists(fs, clean) then Err(NotFound)
    else
      match ReadPage(fs, clean, load)
      case None => Err(NoFrontMatter)
      case Some((fm, _)) =>
        if !YamlTruthy(fm) then Err(NoFrontMatter)
        else
          match Classify(fs, clean, fm, load)
          case Err(e) => Err(e)
          case Ok((kind, user)) => Ok((fm, kind, user))
  }

  /** What a successful request guarantees: a mapping front matter, read from a file, of a page type the driver knows. */
  predicate Prepared(fs: FS, clean: string, req: Result<(Yaml, Kind, string), Failure>) {
    req.Ok? ==> req.value.0.Mapping? && IsFileAt(fs, clean) && (EndsWith(clean, "qa.md") || EndsWith(clean, "index.md"))
  }

  /** The model's reply to item `k`'s request. */
  function ReplyTo(prompts: map<string, string>, k: nat, kind: Kind, user: string, reply: Replier): string
    requires Kinds <= prompts.Keys
  {
    reply(k, prompts[KindName(kind)], user)
  }

  /**
   * The rest of the `try` block once the request is prepared: ask the model
   * and rewrite the page with the reply and its link; only that page changes.
   */
  function Respond(fs: FS, k: nat, clean: string, req: Result<(Yaml, Kind, string), Failure>,
                   prompts: map<string, string>, dump: YamlDumper, reply: Replier): (r: Result<FS, Failure>)
    requires Kinds <= prompts.Keys && Prepared(fs, clean, req)
    ensures r.Ok? ==> req.Ok?
    ensures req.Ok? && ReplyTo(prompts, k, req.value.1, req.value.2, reply) == "" ==> r == Err(EmptyReply)
    ensures r.Ok? ==> var p := Resolve(clean);
      p in fs && fs[p].File? && r.value.Keys == fs.Keys
      && (forall q | q in fs && q != p :: r.value[q] == fs[q]) && r.value[p].File?
  {
    match req
    case Err(e) => Err(e)
    case Ok((fm, kind, user)) =>
      var generated := ReplyTo(prompts, k, kind, user, reply);
      if generated == "" then Err(EmptyReply)
      else
        var final := generated + LinkSuffix(fs, clean);
        Ok(fs[Resolve(clean) := File(Serialize(dump(fm.fields), final))])
  }

  /**
   * The `try` block for one item: the rewritten tree, or why the item
   * failed; a failed item changes nothing.
   */
  function ProcessItem(fs: FS, k: nat, item: string, prompts: map<string, string>,
                       load: YamlLoader, dump: YamlDumper, reply: Replier): (r: Result<FS, Failure>)
    requires Kinds <= prompts.Keys
    ensures r.Ok? ==> var p := Resolve(CleanPath(item));
      p in fs && fs[p].File? && r.value.Keys == fs.Keys
      && (forall q | q in fs && q != p :: r.value[q] == fs[q]) && r.value[p].File?
    ensures !Exists(fs, CleanPath(item)) ==> r == Err(NotFound)
    ensures r.Ok? ==> EndsWith(CleanPath(item), "qa.md") || EndsWith(CleanPath(item), "index.md")
  {
    var clean := CleanPath(item);
    Respond(fs, k, clean, Request(fs, clean, load), prompts, dump, reply)
  }

  /** The processing of one item, as the queue sees it: item `k` of the run on the current tree. */
  type Processor = (FS, nat, string) -> Result<FS, Failure>

  function Processing(prompts: map<string, string>, load: YamlLoader, dump: YamlDumper, reply: Replier): Processor
    requires Kinds <= prompts.Keys
  {
    (fs: FS, k: nat, item: string) => ProcessItem(fs, k, item, prompts, load, dump, reply)
  }

  // ---------------------------------------------------------------------------
  // The queue

  datatype Outcome = Finished | Crashed

  /**
   * One pass of the `while files_queue` loop for `item`, with `rest` left in
   * the queue: process, log a failure, rewrite the list. `Crashed` when
   * writing the fail log or the list raises, which nothing catches.
   */
  function Turn(fs: FS, k: nat, item: string, rest: seq<string>, process: Processor): (r: (Outcome, FS, bool))
  {
    var processed := process(fs, k, item);
    var fs1 := if processed.Ok? then processed.value else fs;
    var logged := if processed.Ok? then Some(fs1) else LogFailed(fs1, item);
    if logged.None? then (Crashed, fs1, false)
    else
      match WriteList(logged.value, rest)
      case None => (Crashed, logged.value, processed.Ok?)
      case Some(fs2) => (Finished, fs2, processed.Ok?)
  }

  /** The tree and the item outcomes after the first `j` passes, or after the pass that crashed. */
  function After(fs: FS, queue: seq<string>, j: nat, process: Processor): (r: (Outcome, FS, seq<bool>))
    requires j <= |queue|
    ensures |r.2| <= j
    ensures r.0 == Finished ==> |r.2| == j
    decreases j, 2
  {
    if j == 0 then (Finished, fs, []) else Pass(fs, queue, j, process)
  }

  /** Pass `j`, for item `queue[j - 1]`; nothing once a pass crashed. */
  function Pass(fs: FS, queue: seq<string>, j: nat, process: Processor): (r: (Outcome, FS, seq<bool>))
    requires 1 <= j <= |queue|
    ensures |r.2| <= j
    ensures r.0 == Finished ==> |r.2| == j
    decreases j, 1
  {
    var before := After(fs, queue, j - 1, process);
    if before.0 == Crashed then before
    else
      var turn := Latest(fs, queue, j, process);
      (turn.0, turn.1, before.2 + [turn.2])
  }

  /** The turn of pass `j` on the state the passes before it left. */
  function Latest(fs: FS, queue: seq<string>, j: nat, process: Processor): (Outcome, FS, bool)
    requires 1 <= j <= |queue|
    decreases j, 0
  {
    Turn(After(fs, queue, j - 1, process).1, j - 1, queue[j - 1], queue[j..], process)
  }

  /** The loop over the whole queue; `oks` records which items succeeded. */
  method RunQueue(fs0: FS, queue: seq<string>, process: Processor)
    returns (out: Outcome, fs: FS, oks: seq<bool>)
    ensures (out, fs, oks) == After(fs0, queue, |queue|, process)
  {
    var remaining := queue;
    var k := 0;
    out, fs, oks := Finished, fs0, [];
    while remaining != []
      invariant k <= |queue| && remaining == queue[k..]
      invariant (out, fs, oks) == After(fs0, queue, k, process)
      invariant out == Finished
      decreases |remaining|
    {
      var item := remaining[0];
      remaining := remaining[1..];
      ghost var turn := Turn(fs, k, item, remaining, process);
      assert Latest(fs0, queue, k + 1, process) == turn;
      var processed := process(fs, k, item);
      if processed.Ok? {
        fs := processed.value;
      } else {
        var logged := LogFailed(fs, item);
        if logged.None? {
          out, oks := Crashed, oks + [false];
          CrashStays(fs0, queue, k + 1, |queue|, process);
          return;
        }
        fs := logged.value;
      }
      var written := WriteList(fs, remaining);
      oks := oks + [processed.Ok?];
      if written.None? {
        out := Crashed;
        CrashStays(fs0, queue, k + 1, |queue|, process);
        return;
      }
      fs := written.value;
      k := k + 1;
    }
  }

  // ---------------------------------------------------------------------------
  // main

  datatype RunResult = Misconfigured | ListUnreadable | NothingQueued | Ran(outcome: Outcome, oks: seq<bool>)

  /** What `main` does to the tree, given the key, the prompt files and the model. */
  function Generate(fs: FS, apiKey: Option<string>, promptLoad: PromptLoader,
                    load: YamlLoader, dump: YamlDumper, reply: Replier): (r: (RunResult, FS))
  {
    if !HasKey(apiKey) || Missing(PromptFiles, |PromptFiles|, promptLoad) != [] then (Misconfigured, fs)
    else
      MissingNone(PromptFiles, |PromptFiles|, promptLoad);
      AllPromptsLoaded(promptLoad);
      match ReadList(fs)
      case None => (ListUnreadable, fs)
      case Some(queue) =>
        if queue == [] then (NothingQueued, fs)
        else
          var run := After(fs, queue, |queue|, Processing(Loaded(PromptFiles, |PromptFiles|, promptLoad), load, dump, reply));
          (Ran(run.0, run.2), run.1)
  }

  method GenerateMain(fs0: FS, apiKey: Option<string>, promptLoad: PromptLoader,
                      load: YamlLoader, dump: YamlDumper, reply: Replier)
    returns (res: RunResult, fs: FS)
    ensures (res, fs) == Generate(fs0, apiKey, promptLoad, load, dump, reply)
  {
    var prompts, ok, reported := CheckConfiguration(apiKey, promptLoad);
    MissingNone(PromptFiles, |PromptFiles|, promptLoad);
    if !ok {
      return Misconfigured, fs0;
    }
    var listed := ReadList(fs0);
    if listed.None? {
      return ListUnreadable, fs0;
    }
    var queue := listed.value;
    if queue == [] {
      return NothingQueued, fs0;
    }
    var out, oks;
    out, fs, oks := RunQueue(fs0, queue, Processing(prompts, load, dump, reply));
    res := Ran(out, oks);
  }

  // ---------------------------------------------------------------------------
  // Lemmas

  /** Once a pass crashes, nothing more happens. */
  lemma {:induction false} CrashStays(fs: FS, queue: seq<string>, j: nat, j': nat, process: Processor)
    requires j <= j' <= |queue|
    requires After(fs, queue, j, process).0 == Crashed
    ensures After(fs, queue, j', process) == After(fs, queue, j, process)
    decreases j' - j
  {
    if j < j' {
      CrashStays(fs, queue, j, j' - 1, process);
    }
  }

  /** The page a successful item rewrites is never one of the two bookkeeping files. */
  lemma ItemAvoidsBookkeeping(clean: string)
    requires EndsWith(clean, "qa.md") || EndsWith(clean, "index.md")
    ensures Resolve(clean) != ListFile && Resolve(clean) != FailLog
  {
    var name := if EndsWith(clean, "qa.md") then "qa.md" else "index.md";
    ResolveLast(clean, name);
    NamedPage(Resolve(clean), name);
  }

  /** A path whose last segment ends in `qa.md` or `index.md` is neither bookkeeping file. */
  lemma NamedPage(p: Path, name: string)
    requires name == "qa.md" || name == "index.md"
    requires |p| > 0 && EndsWith(p[|p| - 1], name)
    ensures p != ListFile && p != FailLog
  {
    assert ListFile[0][|ListFile[0]| - 1] == 't' && FailLog[0][|FailLog[0]| - 1] == 't';
    assert name[|name| - 1] == 'd';
    LastCharDiffers(ListFile[0], name);
    LastCharDiffers(FailLog[0], name);
  }

  lemma LastCharDiffers(s: string, suffix: string)
    requires |s| > 0 && |suffix| > 0 && s[|s| - 1] != suffix[|suffix| - 1]
    ensures !EndsWith(s, suffix)
  {
    if |suffix| <= |s| {
      assert s[|s| - |suffix|..][|suffix| - 1] == s[|s| - 1];
    }
  }

  /** `p` is as it was: present in both trees with the same entry, or in neither. */
  predicate Untouched(fs: FS, fs': FS, p: Path) {
    (p in fs <==> p in fs') && (p in fs ==> fs'[p] == fs[p])
  }

  /** Processing an item leaves the list file and the fail log alone. */
  ghost predicate KeepsBookkeeping(process: Processor) {
    forall fs: FS, k: nat, item: string | process(fs, k, item).Ok? ::
      Untouched(fs, process(fs, k, item).value, ListFile) && Untouched(fs, process(fs, k, item).value, FailLog)
  }

  lemma ProcessingKeepsBookkeeping(prompts: map<string, string>, load: YamlLoader, dump: YamlDumper, reply: Replier)
    requires Kinds <= prompts.Keys
    ensures KeepsBookkeeping(Processing(prompts, load, dump, reply))
  {
    var process := Processing(prompts, load, dump, reply);
    forall fs: FS, k: nat, item: string | process(fs, k, item).Ok?
      ensures Untouched(fs, process(fs, k, item).value, ListFile) && Untouched(fs, process(fs, k, item).value, FailLog)
    {
      ItemAvoidsBookkeeping(CleanPath(item));
    }
  }

  /**
   * The rewritten page ends in its navigation link: a Q&A page links back to
   * the theory, an `index.md` links to its Q&A page exactly when that exists.
   */
  lemma ItemLinks(fs: FS, k: nat, clean: string, req: Result<(Yaml, Kind, string), Failure>,
                  prompts: map<string, string>, dump: YamlDumper, reply: Replier)
    requires Kinds <= prompts.Keys && Prepared(fs, clean, req)
    requires Respond(fs, k, clean, req, prompts, dump, reply).Ok?
    ensures var text := Respond(fs, k, clean, req, prompts, dump, reply).value[Resolve(clean)].text;
      StartsWith(text, "---\n" + dump(req.value.0.fields) + "---\n" + ReplyTo(prompts, k, req.value.1, req.value.2, reply))
      && (EndsWith(clean, "qa.md") ==> EndsWith(text, BackLink))
      && (!EndsWith(clean, "qa.md") && Exists(fs, JoinName(Dirname(clean), "qa.md")) ==> EndsWith(text, QaLink))
      && (!EndsWith(clean, "qa.md") && !Exists(fs, JoinName(Dirname(clean), "qa.md")) ==>
            EndsWith(text, ReplyTo(prompts, k, req.value.1, req.value.2, reply)))
  {
    var generated := ReplyTo(prompts, k, req.value.1, req.value.2, reply);
    Framed("---\n" + dump(req.value.0.fields) + "---\n", generated, LinkSuffix(fs, clean));
  }

  /** A text made of a head, a body and a tail starts with the head and body and ends with the tail. */
  lemma Framed(head: string, body: string, tail: string)
    ensures StartsWith(head + (body + tail), head + body)
    ensures EndsWith(head + (body + tail), tail)
    ensures tail == "" ==> EndsWith(head + (body + tail), body)
  {
    var t := head + (body + tail);
    assert t[..|head + body|] == head + body;
    assert t[|t| - |tail|..] == tail;
    if tail == "" {
      assert t[|t| - |body|..] == body;
    }
  }

  /**
   * Read back, a rewritten page gives the front matter it had and the reply
   * with its link, stripped, when `yaml.dump` writes text that loads back
   * unchanged and holds no delimiter line, and nothing holds a `\r`.
   */
  lemma ItemReadBack(fs: FS, k: nat, clean: string, req: Result<(Yaml, Kind, string), Failure>,
                     prompts: map<string, string>, load: YamlLoader, dump: YamlDumper, reply: Replier)
    requires Kinds <= prompts.Keys && Prepared(fs, clean, req)
    requires Respond(fs, k, clean, req, prompts, dump, reply).Ok?
    requires var text := dump(req.value.0.fields);
      |text| > 0 && !IsSpace(text[0]) && text[|text| - 1] == '\n' && NoDelimiter(text) && '\r' !in text
      && load(text[..|text| - 1]) == Some(req.value.0)
      && '\r' !in ReplyTo(prompts, k, req.value.1, req.value.2, reply)
    ensures ReadPage(Respond(fs, k, clean, req, prompts, dump, reply).value, clean, load)
      == Some((req.value.0, Strip(ReplyTo(prompts, k, req.value.1, req.value.2, reply) + LinkSuffix(fs, clean))))
  {
    var text := dump(req.value.0.fields);
    var final := ReplyTo(prompts, k, req.value.1, req.value.2, reply) + LinkSuffix(fs, clean);
    LinksBreakFree();
    assert '\r' !in final;
    var page := Serialize(text, final);
    assert '\r' !in page;
    NoCarriageReturn(page);
    RoundTrip(text, final);
  }

  /** What the `j`-th and earlier passes appended to the fail log: each failed item on a line of its own, in queue order. */
  function FailLines(items: seq<string>, oks: seq<bool>): string
    requires |items| == |oks|
  {
    if items == [] then ""
    else
      FailLines(items[..|items| - 1], oks[..|oks| - 1]) + (if oks[|oks| - 1] then "" else items[|items| - 1] + "\n")
  }

  lemma BookkeepingDistinct()
    ensures ListFile != FailLog
  {
    assert ListFile[0][1] != FailLog[0][1];
  }

  /** One pass that finishes appends its item to the fail log exactly when the item failed. */
  lemma TurnFailLog(fs: FS, k: nat, item: string, rest: seq<string>, process: Processor)
    requires KeepsBookkeeping(process)
    requires Turn(fs, k, item, rest, process).0 == Finished
    ensures var turn := Turn(fs, k, item, rest, process);
      LogText(turn.1) == LogText(fs) + (if turn.2 then "" else item + "\n")
  {
    BookkeepingDistinct();
    var processed := process(fs, k, item);
    if processed.Ok? {
      var fs1 := processed.value;
      assert Untouched(fs, fs1, FailLog);
      assert LogText(fs1) == LogText(fs);
      assert LogText(WriteList(fs1, rest).value) == LogText(fs1);
      assert LogText(fs) + "" == LogText(fs);
    } else {
      var fs1 := LogFailed(fs, item).value;
      assert LogText(fs1) == LogText(fs) + item + "\n";
      assert LogText(WriteList(fs1, rest).value) == LogText(fs1);
    }
  }

  /** Pass `j`, when it finishes, appends its item to the fail log exactly when the item failed. */
  lemma PassFailLog(fs: FS, queue: seq<string>, j: nat, process: Processor)
    requires 1 <= j <= |queue| && KeepsBookkeeping(process)
    requires Pass(fs, queue, j, process).0 == Finished
    ensures var before := After(fs, queue, j - 1, process);
      var pass := Pass(fs, queue, j, process);
      before.0 == Finished && pass.2 == before.2 + [pass.2[j - 1]]
      && LogText(pass.1) == LogText(before.1) + (if pass.2[j - 1] then "" else queue[j - 1] + "\n")
  {
    var before := After(fs, queue, j - 1, process);
    assert Latest(fs, queue, j, process) == Turn(before.1, j - 1, queue[j - 1], queue[j..], process);
    TurnFailLog(before.1, j - 1, queue[j - 1], queue[j..], process);
  }

  /** A run that finishes leaves the fail log with the failed items appended, in order. */
  lemma {:induction false} AfterFailLog(fs: FS, queue: seq<string>, j: nat, process: Processor)
    requires j <= |queue| && KeepsBookkeeping(process)
    requires After(fs, queue, j, process).0 == Finished
    ensures LogText(After(fs, queue, j, process).1) == LogText(fs) + FailLines(queue[..j], After(fs, queue, j, process).2)
  {
    if j > 0 {
      var before := After(fs, queue, j - 1, process);
      var pass := Pass(fs, queue, j, process);
      PassFailLog(fs, queue, j, process);
      AfterFailLog(fs, queue, j - 1, process);
      FailLinesStep(queue, j, before.2, pass.2[j - 1]);
      AppendAssociative(LogText(fs), FailLines(queue[..j - 1], before.2), if pass.2[j - 1] then "" else queue[j - 1] + "\n");
    }
  }

  lemma AppendAssociative(a: string, b: string, c: string)
    ensures (a + b) + c == a + (b + c)
  {
  }

  lemma FailLinesStep(queue: seq<string>, j: nat, oks: seq<bool>, ok: bool)
    requires 1 <= j <= |queue| && |oks| == j - 1
    ensures FailLines(queue[..j], oks + [ok]) == FailLines(queue[..j - 1], oks) + (if ok then "" else queue[j - 1] + "\n")
  {
    assert queue[..j][..j - 1] == queue[..j - 1];
    assert (oks + [ok])[..j - 1] == oks;
  }

  /** After a pass that finishes, the list file holds exactly what is left of the queue. */
  lemma AfterListFile(fs: FS, queue: seq<string>, j: nat, process: Processor)
    requires 1 <= j <= |queue|
    requires After(fs, queue, j, process).0 == Finished
    ensures var fs' := After(fs, queue, j, process).1;
      ListFile in fs' && fs'[ListFile] == File(FormatList(queue[j..]))
  {
    var before := After(fs, queue, j - 1, process);
    assert before.0 == Finished;
    assert Latest(fs, queue, j, process) == Turn(before.1, j - 1, queue[j - 1], queue[j..], process);
  }

  /**
   * For a queue read from the list file, the rewritten list reads back as
   * the rest of the queue, so a run stopped after any pass resumes where it
   * stood.
   */
  lemma ResumeWhereStopped(fs: FS, j: nat, process: Processor)
    requires ReadList(fs).Some? && 1 <= j <= |ReadList(fs).value|
    requires After(fs, ReadList(fs).value, j, process).0 == Finished
    ensures ReadList(After(fs, ReadList(fs).value, j, process).1) == Some(ReadList(fs).value[j..])
  {
    var queue := ReadList(fs).value;
    AfterListFile(fs, queue, j, process);
    if ListFile in fs {
      ReadListStorable(fs[ListFile].text);
    }
    var rest := queue[j..];
    assert forall i | 0 <= i < |rest| :: Storable(rest[i]) by {
      forall i | 0 <= i < |rest| ensures Storable(rest[i]) {
        assert rest[i] == queue[j + i];
      }
    }
    ListRoundTrip(rest);
  }

  /** A file is at `p`. */
  predicate FileAt(fs: FS, p: Path) {
    p in fs && fs[p].File?
  }

  /** A directory is at `p`. */
  predicate DirAt(fs: FS, p: Path) {
    p in fs && fs[p].Dir?
  }

  /** One pass crashes only on a bookkeeping directory, and leaves each bookkeeping path as it was or a file. */
  lemma TurnBookkeeping(fs: FS, k: nat, item: string, rest: seq<string>, process: Processor)
    requires KeepsBookkeeping(process)
    ensures var turn := Turn(fs, k, item, rest, process);
      (turn.0 == Crashed ==> DirAt(fs, ListFile) || DirAt(fs, FailLog))
      && (Untouched(fs, turn.1, ListFile) || FileAt(turn.1, ListFile))
      && (Untouched(fs, turn.1, FailLog) || FileAt(turn.1, FailLog))
  {
    BookkeepingDistinct();
    var processed := process(fs, k, item);
    if processed.Ok? {
      assert Untouched(fs, processed.value, ListFile) && Untouched(fs, processed.value, FailLog);
    }
  }

  /** Pass `j` keeps what `TurnBookkeeping` says, relative to the state the passes before it left. */
  lemma PassBookkeeping(fs: FS, queue: seq<string>, j: nat, process: Processor)
    requires 1 <= j <= |queue| && KeepsBookkeeping(process)
    ensures var before := After(fs, queue, j - 1, process).1;
      var pass := Pass(fs, queue, j, process);
      (pass.0 == Crashed ==> After(fs, queue, j - 1, process).0 == Crashed || DirAt(before, ListFile) || DirAt(before, FailLog))
      && (Untouched(before, pass.1, ListFile) || FileAt(pass.1, ListFile))
      && (Untouched(before, pass.1, FailLog) || FileAt(pass.1, FailLog))
  {
    var before := After(fs, queue, j - 1, process);
    var turn := Turn(before.1, j - 1, queue[j - 1], queue[j..], process);
    assert Latest(fs, queue, j, process) == turn;
    TurnBookkeeping(before.1, j - 1, queue[j - 1], queue[j..], process);
  }

  /** A run only crashes on a bookkeeping path that is a directory; it leaves each of them as it was or a file. */
  lemma {:induction false} AfterCrash(fs: FS, queue: seq<string>, j: nat, process: Processor)
    requires j <= |queue| && KeepsBookkeeping(process)
    ensures After(fs, queue, j, process).0 == Crashed ==> DirAt(fs, ListFile) || DirAt(fs, FailLog)
    ensures var fs' := After(fs, queue, j, process).1;
      (Untouched(fs, fs', ListFile) || FileAt(fs', ListFile)) && (Untouched(fs, fs', FailLog) || FileAt(fs', FailLog))
  {
    if j > 0 {
      AfterCrash(fs, queue, j - 1, process);
      PassBookkeeping(fs, queue, j, process);
      var before := After(fs, queue, j - 1, process);
      var pass := Pass(fs, queue, j, process);
      if pass.0 == Crashed && before.0 == Finished {
        if DirAt(before.1, ListFile) {
          assert DirAt(fs, ListFile);
        } else {
          assert DirAt(fs, FailLog);
        }
      }
    }
  }
}
