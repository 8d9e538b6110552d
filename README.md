# A verified model of the documentation site generator

The repository builds a Jekyll documentation site from an outline in two steps.

* `script_create_structure.py` reads the outline `content.md`. It removes the
  top-level folders a previous run generated. It writes the site's home page
  `index.md`. It then walks the outline, creating one folder per numbered
  heading (`1`, `1.2`, `1.2.3`, …) and writing a placeholder `index.md` with
  Jekyll front matter (`title`, `parent`, `nav_order`, `has_children`).
* `generate_content.py` works through a processing list
  `files_to_process.txt` of page paths. For each page it reads the front
  matter and picks a prompt kind: `faq` for a `qa.md` page, and `section`,
  `overview` or `topic` for an `index.md` page, from its title number and
  `has_children`. It asks a language model for the body and rewrites the
  page with the reply and a navigation link. Failed items are appended to
  `fail_process.txt`, and after every item the list file is rewritten with
  what is left of the queue.

The file tree is a map from paths (sequences of segments, relative to the
working directory) to directories and file texts (`FileSystem`). These are
parameters of the model, because their internals are not part of it:

* `slugify`;
* the YAML loader and dumper;
* the prompt-file loader;
* the language model, as `reply(k, master, user)`: the answer for the
  `k`-th item of the queue, `""` when the call fails. An item that fails
  before calling the model still has its `k`.

Modules, in dependency order:

| module | file | models |
|---|---|---|
| `Wrappers` | wrappers.dfy | `Option` and `Result` |
| `Text` | text.dfy | `str.strip`, `lstrip`, `split`, `join`, `sorted`, and `readlines` with universal newlines |
| `FileSystem` | filesystem.dfy | the tree, `os.makedirs`, `open(..., 'w')`, `shutil.rmtree` |
| `Outline` | outline.dfy | the outline-line regex `^(\d+(\.\d+)*)\s+(.+)`, level and `nav_order` |
| `Structure` | structure.dfy | `create_structure`: specification functions over the whole outline and the recursive method |
| `Site` | site.dfy | `clean_generated_folders` and `main` of the structure script |
| `PageFormat` | pageformat.dfy | the front-matter page format: writer and the `get_file_data` regex |
| `Paths` | paths.dfy | `os.path.exists`, `dirname`, `join`, `listdir` on the tree |
| `QueueFiles` | queuefiles.dfy | the processing list and the fail log |
| `Configuration` | configuration.dfy | `check_configuration` |
| `Pages` | pages.dfy | `get_file_data`, the title regexes, classification, user prompts, links |
| `Driver` | driver.dfy | one item's processing, the queue loop, and `main` of the content script |

## How `create_structure` is modelled

The method `Structure.CreateStructure` follows the script closely: a loop
over the lines that calls itself on the suffix for deeper headings and
returns the number of lines it consumed. Its result is tied to the
specification function `Run`, which `RunMeaning` relates to properties of
the outline as a whole:

* `Parent`: the nearest shallower heading before a heading;
* `PathOf`: the parent's folder joined with the slug;
* `Bad`: a heading more than one level deeper than the heading before it;
* `Steps`: the page writes of a range of lines, in outline order.

A bad heading makes the script raise `UnboundLocalError`, because the
recursive call refers to `current_path` and `title` before the loop has
assigned them. The model returns an error carrying the line of the first bad
heading. The writes made before that line stay in the tree.

## Behaviour of the code that the model keeps

The model follows the scripts as written, including these consequences:

* A heading that skips a level (`1` then `1.1.1`, or a first heading `1.1`)
  stops the whole run. It is not skipped with a warning.
* A heading whose title slugs to `""` gets its parent's folder, so its
  `index.md` overwrites the parent's page.
* A top-level heading whose title slugs to `""` makes the cleaner call
  `shutil.rmtree('./')`. This deletes everything and then raises.
  There is no guard against deleting the working directory or the outline.
* The parent is found by position in the outline, not by the number's prefix.
  For example, `2.1` directly after `1` is nested under `1`.

## Model

| member | source | states |
|---|---|---|
| `Outline.MatchSound` | script_create_structure.py:66 | whenever `Match` accepts a line, the regex matches it with that number as group 1, a whitespace run and a title run that stops only at a newline or the end of the line, and the title is that run stripped |
| `Outline.MatchComplete` | script_create_structure.py:32 | whenever the regex can match a line, `Match` accepts it with the same number; for a line with no newline before its last character and a greedy title run, the title is that run stripped |
| `Outline.MatchTitle` | script_create_structure.py:92 | a matched title is stripped and holds no newline |
| `Outline.MatchNumber` | script_create_structure.py:72 | a matched number consists of digits and dots only |
| `Outline.LevelOneIffNoDot` | script_create_structure.py:40 | a number is top-level (one `.`-component) exactly when it contains no `.` |
| `Outline.NavOrderSuffix` | script_create_structure.py:123 | `nav_order` is the dot-free last component of the number, preceded by `.` unless it is the whole number |
| `Text.SplitCount` | script_create_structure.py:73 | the level, the number of `.`-pieces, is one more than the number of dots |
| `FileSystem.MakeDirs` | script_create_structure.py:98 | `os.makedirs(p, exist_ok=True)` keeps every entry, makes every prefix of `p` present, and adds only directories on `p`'s way |
| `Structure.ParentLevel` | script_create_structure.py:77-87 | in an outline without bad headings, a heading has no parent exactly when it is top-level, and otherwise its parent is exactly one level up |
| `Structure.PathDepth` | script_create_structure.py:95 | with non-empty slugs, a heading's folder is as deep as its level |
| `Structure.TopLevelPath` | script_create_structure.py:48 | a top-level heading's folder sits in the working directory and its `parent:` is `Home` |
| `Structure.ParentInCall` | script_create_structure.py:84 | a heading met by the call for its level is nested under that call's heading: folder below it, `parent:` its title |
| `Structure.CreateStructure` | script_create_structure.py:48-137 | the recursive walk returns or raises exactly as `Run` says, and the tree it leaves is the start tree with `Run`'s page writes carried out in order |
| `Structure.WriteHeading` | script_create_structure.py:89-135 | a heading at the call's level: folder `parent_path/slug(title)`, `has_children` from the next line only, its `index.md` written, and it becomes `current` |
| `Structure.Descend` | script_create_structure.py:82-87 | a deeper heading: the recursive call on the suffix consumes at least one line and its writes follow the caller's, or its error becomes the caller's |
| `Structure.RunNested` | script_create_structure.py:84-87 | after a returning recursive call the loop resumes past the lines it consumed, which are more than zero |
| `Structure.RunMeaning` | script_create_structure.py:60-137 | a call handles the lines up to the first shallower heading, or raises at the first bad heading, making exactly the writes of the headings before that point |
| `Structure.CreateStructureOutcome` | script_create_structure.py:165 | on the whole outline the call returns `len(lines)` exactly when no heading is bad, and otherwise raises at the first bad one; either way it writes one page per heading before that point, in order |
| `Structure.StepsHeadings` | script_create_structure.py:66-70 | every page write belongs to a matching line in range, and every such line has its write |
| `Structure.PageOf` | script_create_structure.py:116-133 | a heading whose folder no later heading shares ends with exactly the page text written for it |
| `Structure.PerformKeeps` | script_create_structure.py:98-116 | creating folders and writing pages never removes a path |
| `Site.CleanGeneratedFolders` | script_create_structure.py:13-46 | the cleaning loop ends as `Cleaned` says: nothing without `content.md`, otherwise the folders named by top-level lines removed in order |
| `Site.CleanFoldersMeaning` | script_create_structure.py:29-45 | unless a line names the working directory, cleaning removes exactly what lies beneath a named folder that is a directory; otherwise it raises leaving nothing |
| `Site.CleanTwice` | script_create_structure.py:43-44 | cleaning what cleaning left removes nothing more |
| `Site.CleanedIdempotent` | script_create_structure.py:13-46 | running `clean_generated_folders` again on the tree a successful run left changes nothing |
| `Site.CleanNamesTopFolders` | script_create_structure.py:38-41 | a line names a folder to clean exactly when it is a top-level heading, and that folder is the one `create_structure` gives the heading |
| `Site.CleanCoversPages` | script_create_structure.py:38-41 | every folder written for a heading before the first bad one lies beneath a folder the cleaner names for the same outline |
| `Site.RootTitleWipes` | script_create_structure.py:41-44 | a top-level title whose slug is empty makes cleaning delete everything and the run stop there |
| `Site.RunScript` | script_create_structure.py:139-166 | `main` cleans, reads `content.md` (missing: stop), writes the home page and runs `create_structure`, ending as `Script` says |
| `Site.ContentKept` | script_create_structure.py:144-149 | cleaning never removes `content.md`, so `main` reads the outline the cleaner read |
| `Site.HomePageKept` | script_create_structure.py:155-162 | after a run that got past cleaning and found the outline, the home page is still the text `main` wrote |
| `Site.ScriptPages` | script_create_structure.py:164-165 | after such a run each heading before the first bad one whose folder no later heading shares has its page |
| `Text.UniversalNewlines` | generate_content.py:17-18 | text-mode reading leaves no `\r` and never lengthens the text |
| `PageFormat.SplitFrontMatter` | generate_content.py:19-22 | a split page's body is stripped |
| `PageFormat.RoundTrip` | generate_content.py:19-33 | reading back what `update_file_content` wrote gives the dumped front matter without its last newline and the stripped content, when the dump is non-empty, starts with a non-space, ends in a newline and has no `---` line |
| `Pages.ReadPage` | generate_content.py:12-26 | `get_file_data` succeeds only on a file whose page splits and whose front matter loads, returning that document and the stripped body |
| `QueueFiles.ReadList` | generate_content.py:39-45 | the list is empty when the list file is missing, unreadable exactly when it is a directory, and otherwise its entries |
| `QueueFiles.Entries` | generate_content.py:45 | every entry is stripped, non-empty and not a `#` comment, and there are no more entries than lines |
| `QueueFiles.WriteList` | generate_content.py:47-50 | the list file is rewritten with `FormatList(xs)` unless its path is a directory |
| `QueueFiles.FormatLines` | generate_content.py:50 | the written list has one line per item, each with its line end |
| `QueueFiles.ListRoundTrip` | generate_content.py:45-50 | reading back the written list gives the same items in order when each is a stripped one-line entry |
| `QueueFiles.ReadListStorable` | generate_content.py:43-45 | every item the reader returns is such an entry, so it is stored back unchanged |
| `QueueFiles.LogFailed` | generate_content.py:52-55 | the item and a newline are appended to the fail log, created if missing, unless its path is a directory |
| `Configuration.CheckConfiguration` | generate_content.py:57-87 | succeeds exactly when the key is set and all four prompts load; then the keys are exactly the four kinds with their texts; any failure returns no prompts; with a key every missing prompt is reported, in order |
| `Configuration.MissingExactly` | generate_content.py:75-79 | a path is reported exactly when its prompt does not load |
| `Configuration.MissingNone` | generate_content.py:84 | nothing is reported exactly when every prompt loads |
| `Configuration.LoadedAll` | generate_content.py:73-81 | with every prompt loaded, each kind maps to the text of the last file listed for it |
| `Configuration.AllPromptsLoaded` | generate_content.py:66-71 | the four kinds are distinct, so the loaded prompts have exactly those keys, each with its own file's text |
| `Pages.LeadingNumber` | generate_content.py:137-140 | the number is the longest leading run of digits and dots |
| `Pages.TopicTitleClean` | generate_content.py:162 | the topic title of a page without children holds no digit and no `.` |
| `Pages.QaMarksNone` | generate_content.py:127 | a title with no digit or dot keeps every character when the Q&A marks are removed |
| `Pages.Truncate` | generate_content.py:133 | `s[:n]` is a prefix of at most `n` characters, all of `s` when it is short enough |
| `Pages.FaqPromptSummary` | generate_content.py:133 | a Q&A prompt ends with the related summary part, which is the start of the related text and at most 4000 characters of it |
| `Pages.RelatedSummary` | generate_content.py:128-132 | the related summary is never empty: the sibling `index.md` body or `відсутній` |
| `Pages.NoRelatedPage` | generate_content.py:129-130 | without a sibling `index.md` the summary is `відсутній` |
| `Pages.FaqRequest` | generate_content.py:124-133 | when the sibling `index.md` reads with a non-empty body, a Q&A page is classified `faq` and its prompt ends with the first 4000 characters of that body; a title without digits or dots is passed on only stripped |
| `Paths.SubDirs` | generate_content.py:145 | every listed name is a non-empty directory directly inside the page's folder |
| `Text.SortedNames` | generate_content.py:145 | `sorted` lists each name once, in strictly increasing order |
| `Pages.SubTitle` | generate_content.py:147-150 | looking at one child page fails only when its document is not a mapping |
| `Pages.SubTitles` | generate_content.py:146-150 | the loop over the children yields at most one title per child and fails only on a child whose document is not a mapping |
| `Pages.TitleTexts` | generate_content.py:151 | `filter(None, ...)` keeps the truthy titles, and `join` fails exactly when one of them is not text |
| `Pages.SubTopics` | generate_content.py:144-151 | the sub-topic text fails only on a listing error, a non-mapping child or a non-text child title |
| `Pages.KindName` | generate_content.py:168 | each kind names one of the four master prompts |
| `Pages.Classify` | generate_content.py:124-166 | a page is classified only when its front matter is a mapping and its path ends in `qa.md` or `index.md` |
| `Pages.ClassifyQa` | generate_content.py:124-127 | a `qa.md` page is classified, as `faq`, exactly when its front matter is a mapping with a text title |
| `Pages.ClassifyIndexKinds` | generate_content.py:135-164 | an `index.md` title without a leading number is an error; without children it is a `topic`; with children it is a `section` when the number has at most two parts and an `overview` otherwise |
| `Pages.ClassifyRejects` | generate_content.py:124-166 | any other path is an error, and so is an `index.md` without a mapping and a text title |
| `Pages.LinksBreakFree` | generate_content.py:175-179 | neither navigation link holds a carriage return |
| `Text.LStripChar` | generate_content.py:109 | `lstrip('/')` removes exactly the leading `/` characters |
| `Driver.Request` | generate_content.py:113-166 | a prepared request has a mapping front matter read from a file whose path ends in `qa.md` or `index.md` |
| `Driver.Respond` | generate_content.py:168-181 | an empty reply is the failure `EmptyReply`; on success only the page itself is rewritten |
| `Driver.ProcessItem` | generate_content.py:111-182 | a missing file is `NotFound`; a processed item changes only its own page, which ends in `qa.md` or `index.md` |
| `Driver.ItemLinks` | generate_content.py:170-181 | the page is the front matter, then the reply, then its link: `qa.md` gets the back link; `index.md` gets the Q&A link exactly when a sibling `qa.md` exists |
| `Driver.ItemReadBack` | generate_content.py:28-37 | read back, a rewritten page gives its front matter and the stripped reply with its link, when the dump loads back unchanged |
| `Driver.ItemAvoidsBookkeeping` | generate_content.py:9-10 | a page that ends in `qa.md` or `index.md` is neither the list file nor the fail log |
| `Driver.ProcessingKeepsBookkeeping` | generate_content.py:181 | processing an item never touches the list file or the fail log |
| `Driver.RunQueue` | generate_content.py:107-192 | the loop pops the head each pass and ends as `After` says: every item once, in order, until a bookkeeping write raises |
| `Driver.After` | generate_content.py:107-108 | a run that finishes records one outcome per item |
| `Driver.CrashStays` | generate_content.py:188-191 | once a pass raises, nothing more happens |
| `Driver.AfterFailLog` | generate_content.py:184-189 | a finished run appends to the fail log exactly the failed items, as listed, in queue order |
| `Driver.AfterListFile` | generate_content.py:191 | after a finished pass the list file holds exactly the rest of the queue, whatever the outcomes |
| `Driver.ResumeWhereStopped` | generate_content.py:39-50 | for a queue read from the list file, the rewritten list reads back as the rest of the queue |
| `Driver.AfterCrash` | generate_content.py:184-191 | a run raises only when the list file or the fail log is a directory, and leaves each of them as it was or a file |
| `Driver.GenerateMain` | generate_content.py:89-104 | `main` stops on a bad configuration, an unreadable list or an empty queue, and otherwise runs the queue with the loaded prompts, as `Generate` says |

## Left out

- Console output (`print`) is not modelled; it changes no state.
- Environment loading, `configure_gemini` and the network call are inputs.
  The reply oracle returns `""` for a failed or empty answer.
  A `ValueError` from `configure_gemini` is not modelled.
- `slugify`, YAML loading and dumping, and reading prompt files are inputs, not modelled.
  `yaml.safe_load` raising is the loader returning `None`.
- `re`'s `\d` is restricted to the ASCII digits.
  Python also matches other Unicode decimal digits.
- Text encoding is not modelled: a file's text is its decoded string.
  Text-mode writing translates no newlines (`\n` on POSIX).
- Path strings are resolved by dropping empty and `.` segments.
  `..`, absolute paths and symbolic links are not modelled.
- Errors of `os.makedirs` and `open(..., 'w')` in `create_structure` are not modelled.
  This covers a folder path that is a file and a page path that is a directory.
- The same holds for `main`'s write of the home page `index.md`.
  When that path is a directory the script raises `IsADirectoryError`.
  The model instead turns that entry into the file and keeps what lies beneath it.
- `content.md` that is a directory counts as missing.
  The script would raise `IsADirectoryError` there rather than report it.
- `shutil.rmtree('./')` is modelled as deleting everything beneath the working directory and then raising.
- `get_files_to_process` on a list path that is a directory raises in the script.
  The model reports this as `ListUnreadable`.
- Writing to a list file or fail log that is a directory raises uncaught in the script.
  The model's queue loop stops there with `Crashed`.
- The order `os.listdir` returns is not modelled: the names are a set, and `sorted` orders them.
- Structure.PageOf: states the final page only for a heading whose folder no later heading shares.
  When two headings share a folder the later page wins by the same lemma applied to it.
- Driver.ItemReadBack: holds under stated conditions on `yaml.dump`'s text.
  The text must not start with whitespace, must end in a newline, must hold no `---` line and no `\r`, and must load back as the same document.
  The YAML library's output is not modelled, so these cannot be proved.
