/**
 * `check_configuration` of `generate_content.py`: the API key must be set
 * and each of the four master prompts must load. Reading the key from the
 * environment and reading prompt files (`config.py`) are inputs here: the key
 * as it was read, and `load_prompt` as a function from a path to its text,
 * `None` when the file is missing or unreadable.
 */
module Configuration {
  import opened Wrappers

  type PromptLoader = string -> Option<string>

  /** The file holding the master prompt of a kind. */
  function PromptPath(name: string): string {
    "prompt/" + name + "_master_prompt.md"
  }

  /** The prompt kinds and their files, in the order the check visits them. */
  const PromptFiles: seq<(string, string)> := [
    ("section", PromptPath("section")),
    ("overview", PromptPath("overview")),
    ("topic", PromptPath("topic")),
    ("faq", PromptPath("faq"))
  ]

  const Kinds: set<string> := {"section", "overview", "topic", "faq"}

  /** `not GEMINI_API_KEY` fails for an unset and for an empty key. */
  predicate HasKey(apiKey: Option<string>) {
    apiKey.Some? && apiKey.value != ""
  }

  /** The paths among the first `n` of `files` whose prompt does not load, in order: the ones the check reports. */
  function Missing(files: seq<(string, string)>, n: nat, load: PromptLoader): (r: seq<string>)
    requires n <= |files|
    ensures |r| <= n
  {
    if n == 0 then []
    else Missing(files, n - 1, load) + (if load(files[n - 1].1).None? then [files[n - 1].1] else [])
  }

  /** `loaded_prompts` after visiting the first `n` of `files`: each kind whose prompt loaded, with its text. */
  function Loaded(files: seq<(string, string)>, n: nat, load: PromptLoader): map<string, string>
    requires n <= |files|
  {
    if n == 0 then map[]
    else
      var before := Loaded(files, n - 1, load);
      match load(files[n - 1].1)
      case Some(text) => before[files[n - 1].0 := text]
      case None => before
  }

  /**
   * The check: the prompts by kind and whether the configuration is usable,
   * together with the prompt files reported missing.
   */
  method CheckConfiguration(apiKey: Option<string>, load: PromptLoader)
    returns (prompts: map<string, string>, ok: bool, reported: seq<string>)
    ensures ok <==> HasKey(apiKey) && forall i | 0 <= i < |PromptFiles| :: load(PromptFiles[i].1).Some?
    ensures ok ==> prompts.Keys == Kinds && prompts == Loaded(PromptFiles, |PromptFiles|, load)
    ensures ok ==> forall i | 0 <= i < |PromptFiles| :: prompts[PromptFiles[i].0] == load(PromptFiles[i].1).value
    ensures !ok ==> prompts == map[]
    ensures HasKey(apiKey) ==> reported == Missing(PromptFiles, |PromptFiles|, load)
    ensures !HasKey(apiKey) ==> reported == []
  {
    if !HasKey(apiKey) {
      return map[], false, [];
    }
    var loaded: map<string, string> := map[];
    var configOk := true;
    reported := [];
    var i := 0;
    while i < |PromptFiles|
      invariant 0 <= i <= |PromptFiles|
      invariant loaded == Loaded(PromptFiles, i, load)
      invariant reported == Missing(PromptFiles, i, load)
      invariant configOk <==> reported == []
    {
      var (name, path) := PromptFiles[i];
      var content := load(path);
      if content.None? {
        configOk := false;
        reported := reported + [path];
      } else {
        loaded := loaded[name := content.value];
      }
      i := i + 1;
    }
    MissingNone(PromptFiles, |PromptFiles|, load);
    if !configOk {
      return map[], false, reported;
    }
    AllPromptsLoaded(load);
    prompts, ok := loaded, true;
  }

  // ---------------------------------------------------------------------------

  /** A path is reported exactly when its prompt does not load. */
  lemma {:induction false} MissingExactly(files: seq<(string, string)>, n: nat, load: PromptLoader, path: string)
    requires n <= |files|
    ensures path in Missing(files, n, load) <==> exists i | 0 <= i < n :: files[i].1 == path && load(path).None?
  {
    if n > 0 {
      MissingExactly(files, n - 1, load, path);
    }
  }

  /** Nothing is reported exactly when every prompt loads. */
  lemma MissingNone(files: seq<(string, string)>, n: nat, load: PromptLoader)
    requires n <= |files|
    ensures Missing(files, n, load) == [] <==> forall i | 0 <= i < n :: load(files[i].1).Some?
  {
    if Missing(files, n, load) != [] {
      MissingExactly(files, n, load, Missing(files, n, load)[0]);
    }
    forall i | 0 <= i < n && load(files[i].1).None? ensures Missing(files, n, load) != [] {
      MissingExactly(files, n, load, files[i].1);
    }
  }

  /** With every prompt loaded, each kind maps to the text of the last file listed for it. */
  lemma {:induction false} LoadedAll(files: seq<(string, string)>, n: nat, load: PromptLoader)
    requires n <= |files|
    requires forall i | 0 <= i < n :: load(files[i].1).Some?
    ensures forall i | 0 <= i < n :: files[i].0 in Loaded(files, n, load)
    ensures forall k | k in Loaded(files, n, load) :: exists i | 0 <= i < n :: files[i].0 == k
    ensures forall i | 0 <= i < n && (forall j | i < j < n :: files[j].0 != files[i].0) ::
      Loaded(files, n, load)[files[i].0] == load(files[i].1).value
  {
    if n > 0 {
      LoadedAll(files, n - 1, load);
    }
  }

  /** The four kinds are distinct, so each gets its own prompt. */
  lemma AllPromptsLoaded(load: PromptLoader)
    requires forall i | 0 <= i < |PromptFiles| :: load(PromptFiles[i].1).Some?
    ensures Loaded(PromptFiles, |PromptFiles|, load).Keys == Kinds
    ensures forall i | 0 <= i < |PromptFiles| :: Loaded(PromptFiles, |PromptFiles|, load)[PromptFiles[i].0] == load(PromptFiles[i].1).value
  {
    var f := PromptFiles;
    var v0, v1, v2, v3 := load(f[0].1).value, load(f[1].1).value, load(f[2].1).value, load(f[3].1).value;
    assert Loaded(f, 1, load) == map["section" := v0];
    assert Loaded(f, 2, load) == map["section" := v0, "overview" := v1];
    assert Loaded(f, 3, load) == map["section" := v0, "overview" := v1, "topic" := v2];
    assert Loaded(f, 4, load) == map["section" := v0, "overview" := v1, "topic" := v2, "faq" := v3];
  }
}
