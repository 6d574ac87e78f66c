# md-toc documentation sync and page table of contents, in Dafny

This project models the core of the md-toc documentation site in Dafny and proves properties of it.

- `sync_docs.py` collects Markdown files from several git repositories into one documentation tree. It prepends a front-matter header to files that lack one.
- `assets/js/page-toc.js` builds an "on this page" table of contents from a page's headings. It places the table in the sidebar.

The model covers five pieces.

- **Configuration check** (`config_validation.dfy`). `validate_config` runs over a YAML value datatype (`yaml_value.dfy`: map, list, string, and any other scalar kept as its YAML text). A key that occurs more than once is looked up by its last occurrence, as PyYAML does. Three methods with early returns are proved equal to a declarative shape predicate.
- **Title and front matter** (`paths.dfy`, `title.dfy`, `front_matter.dfy`).
  - The required `os.path` functions are written out over `/`: `join` of two parts, `basename`, `dirname`, `splitext`, and the `strip` of separators.
  - `str.title` is modelled over ASCII.
  - Building the header mutates a dict and a list of lines in loops. It is a method proved equal to a functional definition. `yaml.dump(value, default_flow_style=True).strip()` is a parameter `serialize: Value -> string` that is never interpreted.
- **Document-set processing** (`file_system.dfy`, `document_pipeline.dfy`, `rerun.dfy`).
  - The filesystem is a `Disk` object holding a map of regular files and a set of directories. A file's content is text, or undecodable.
  - `os.makedirs`, `open(..., 'w')` and reading are methods on the `Disk`, and each says exactly when it raises.
  - Four nested methods follow the loops of `process_source_documents`. Each is proved equal to a step-by-step reference definition that also records what happened to every set and file (written, skipped, failed).
  - `rerun.dfy` proves that a second run over the first run's result changes nothing, provided the file patterns are independent.
- **Repository cache** (`repo_cache.dfy`).
  - `get_source_repo` steps a cache slot (absent, not a repository, or a repository) through these git primitives on a `CacheSlot` object: open, fetch, checkout, pull, hard reset, rmtree and clone.
  - A repository records its HEAD (on a branch with its tip and tracked upstream, or detached at a commit), its remote-tracking refs and its tags.
  - What the network and git answer is an input, `GitEnv`. That includes the commit a pull lands on.
  - The method is proved equal to a state-machine function `Sync`.
- **Page table of contents** (`toc_tree.dfy`, `page_toc.dfy`).
  - The DOM fragment is a tree of lists and items (`Ul`, `Li`). `parentStack` is the sequence of the open lists' paths in that tree.
  - The `headers.forEach` loop, the pop loop and the loop that creates child lists are methods. Each is proved equal to a reference function `Place`, `PlaceAll` or `Nested`.
  - Lemmas prove the stack invariant and where each item goes.
  - The guards and the insertion into the sidebar are modelled on a small `Page` record.

## Model

| member | source | states |
|---|---|---|
| Yaml.Get | sync_docs.py:54-75 | a key lookup returns the value of the key's last occurrence in the mapping |
| ConfigValidation.CheckDocSet | sync_docs.py:67-75 | true exactly when a document set is a map with `target_dir`, `base_repo_path`, `markdown_files` and `image_dirs`, the last two being lists |
| ConfigValidation.CheckSource | sync_docs.py:58-75 | true exactly when a source is a map with `id`, `name`, `repo_url`, `branch` and `documents`, any `default_front_matter` is a map, and `documents` is a non-empty list of valid document sets |
| ConfigValidation.ValidateConfig | sync_docs.py:52-77 | true exactly when the root is a map with a string `processed_docs_root` and a list `sources` whose every element is a valid source |
| ConfigValidation.EmptySourcesAccepted | sync_docs.py:56-58 | a configuration with an empty `sources` list is accepted |
| ConfigValidation.EmptyDocumentsRefused | sync_docs.py:65-66 | any configuration with a source whose `documents` is an empty list is refused |
| Paths.LastIndex | sync_docs.py:147 | the last position of a character, or -1 when it does not occur |
| Paths.Join | sync_docs.py:160 | an absolute second part replaces the first; otherwise a separator is inserted between the parts exactly when the first is non-empty and does not end in one, and the parts are concatenated as they are when it is not inserted |
| Paths.Basename | sync_docs.py:196 | the result is the separator-free tail of the path, preceded by a separator unless it is the whole path |
| Paths.RStrip | sync_docs.py:164 | the result is the longest prefix not ending in the character, and only that character was removed |
| Paths.LStrip | sync_docs.py:164 | the result is the longest suffix not starting with the character, and only that character was removed |
| Paths.StripSep | sync_docs.py:164 | the stripped target directory is a contiguous slice of the input with only separators before and after it, and it neither starts nor ends with a separator |
| Paths.DirNameParts | sync_docs.py:179 | the target's directory is a prefix of the path followed by separators only up to the basename; it is empty exactly when the path has no separator; it ends in a separator only when it is all separators, and then it reaches the basename |
| Paths.SplitExtParts | sync_docs.py:147 | root and extension concatenate back to the name; a non-empty extension starts at the last dot and is a dot followed by neither dots nor separators; the extension is non-empty exactly when the last component has a dot after some character that is not a dot |
| Paths.SplitExtHidden | sync_docs.py:147 | a name like `.hidden` keeps its leading dot and has no extension |
| Title.Replace | sync_docs.py:148 | every occurrence of one character is replaced by another and nothing else changes |
| Title.TitleCaseAt | sync_docs.py:148 | each letter is upper-cased exactly when the character before it is not a letter (or it is first), otherwise lower-cased; other characters are kept |
| Title.GenerateTitle | sync_docs.py:145-148 | the title has exactly the length of the name without its extension |
| Title.GenerateTitleAt | sync_docs.py:145-148 | the title has the length of the name without extension; `_` and `-` become spaces and each position is title-cased from its neighbour |
| Title.MyCoolDocExample | sync_docs.py:145-148 | `my_cool-Doc.md` becomes `My Cool Doc` |
| FrontMatter.DictSetDistinct | sync_docs.py:196 | dict assignment keeps keys distinct, binds the key to the new value and leaves every other key and value as it was |
| FrontMatter.UpdateWithEmpty | sync_docs.py:193-194 | `update` from defaults into an empty dict yields distinct keys, the same key set, and the last value for each key |
| FrontMatter.UpdateWithDict | sync_docs.py:193-194 | updating an empty dict from a dict reproduces it, order included |
| FrontMatter.MergedOfDict | sync_docs.py:193-196 | the header fields are the defaults in their own order, followed by `title` only when the defaults have none |
| FrontMatter.MergedFields | sync_docs.py:193-196 | `title` is present once; a default title is kept, otherwise the generated one is used; all default keys keep their values; no other key appears |
| FrontMatter.KeyLines | sync_docs.py:199-200 | one line per header field, in the fields' order, line i being field i's key, `: ` and its serialized value |
| FrontMatter.BuildHeader | sync_docs.py:193-202 | the loops over `new_fm` and `fm_lines` produce exactly the reference header block |
| FrontMatter.JoinLinesFramed | sync_docs.py:198-202 | joining `---`, the lines and `---` with newlines gives `---\n`, each line followed by a newline, then `---` |
| FrontMatter.HeaderBlockShape | sync_docs.py:198-202 | the header block is `---\n`, one terminated line per field, `---\n\n` |
| FrontMatter.NormaliseContent | sync_docs.py:189-203 | the written text equals the reference, starts with `---`, and ends with the original text |
| FrontMatter.NormaliseShape | sync_docs.py:189-203 | a text starting with `---` is passed through; any other text gets `---\n` + field lines + `---\n\n` prepended; the output always starts with `---` |
| FrontMatter.NormaliseIdempotent | sync_docs.py:189-190 | normalising an already-normalised text changes nothing |
| FileSystem.Disk.MakeDirs | sync_docs.py:167 | assumed behaviour of `os.makedirs(..., exist_ok=True)`: it raises exactly when the path is empty or it or an ancestor is a regular file; otherwise the path and its ancestors become directories |
| FileSystem.Disk.ReadText | sync_docs.py:186-187 | assumed behaviour of `open(...).read()`: reading gives the file's text, or nothing for an undecodable file, and changes nothing |
| FileSystem.Disk.WriteText | sync_docs.py:207-208 | assumed behaviour of `open(..., 'w')`: it raises exactly when the path is empty, ends in a separator, is a directory or has a missing parent; otherwise the target holds the text |
| DocumentPipeline.ProcessFile | sync_docs.py:176-215 | one file pattern changes the filesystem as the reference step does and reports whether the target was written |
| DocumentPipeline.ProcessFiles | sync_docs.py:175-215 | the inner loop equals the reference run over the patterns in order, and reports whether any target was written |
| DocumentPipeline.ProcessDocSet | sync_docs.py:158-215 | one document set equals the reference: skipped without a target, stopped when the set directory cannot be created, otherwise its patterns are processed |
| DocumentPipeline.ProcessSourceDocuments | sync_docs.py:150-216 | the whole function equals the reference run over every set, and returns true exactly when some file was written |
| DocumentPipeline.AnyWrittenAppend | sync_docs.py:155 | the processed flag of two runs in sequence is the disjunction of their flags |
| DocumentPipelineProperties.FileStepEffect | sync_docs.py:176-211 | each file yields one outcome about its own paths; only a write changes regular files, and it stores the normalised source text at the target |
| DocumentPipelineProperties.MissingSourceNoWrite | sync_docs.py:179-184 | a missing source is never written, and its target sub-directory is still created whenever that is possible |
| DocumentPipelineProperties.FilesRunOutcomes | sync_docs.py:175-215 | every pattern of a set gets exactly one outcome, in order, whatever happened to the earlier ones |
| DocumentPipelineProperties.WrittenTargetsAppend | sync_docs.py:175-215 | the targets written by two runs in sequence are the union of each run's targets |
| DocumentPipelineProperties.FramesCompose | sync_docs.py:158-215 | the frame property composes across consecutive runs |
| DocumentPipelineProperties.FilesRunFrames | sync_docs.py:175-215 | a set's patterns leave every untargeted regular file unchanged, only add directories, and keep files and directories disjoint |
| DocumentPipelineProperties.SetRunFrames | sync_docs.py:158-215 | the same holds for one document set |
| DocumentPipelineProperties.SetsRunFrames | sync_docs.py:158-215 | the same holds for all document sets in order |
| DocumentPipelineProperties.SourceRunFrames | sync_docs.py:150-216 | the same holds for a whole source; the flag is true exactly when some target was written; without a local path nothing happens |
| DocumentPipelineProperties.SetWithoutTargetSkipped | sync_docs.py:161-163 | a set with a missing or empty `target_dir` produces one warning and changes nothing |
| PipelineRerun.RerunChangesNothing | sync_docs.py:150-216 | processing a source a second time over the first run's result leaves every file and directory as the first run left it |
| RepoCache.CacheSlot.Open | sync_docs.py:89 | assumed behaviour of `Repo(path)`: opening an existing slot gives its repository, or the invalid-repository error, and changes nothing |
| RepoCache.CacheSlot.Fetch | sync_docs.py:91 | a successful fetch with pruning makes the remote-tracking refs the remote's branches and adds the remote's tags the repository lacks, keeping its local tags; a failed one changes nothing |
| RepoCache.CacheSlot.Checkout | sync_docs.py:93 | a successful checkout moves HEAD where git resolves the ref; a failed one changes nothing |
| RepoCache.CacheSlot.Pull | sync_docs.py:96-98 | pulling moves the branch to the commit git's pull lands on (an input), or fails when git reports an error or the upstream was not fetched, and then changes nothing |
| RepoCache.CacheSlot.ResetHard | sync_docs.py:102 | a hard reset moves the branch to `origin/<branch>`, or fails when there is no such ref |
| RepoCache.CacheSlot.Remove | sync_docs.py:108 | rmtree leaves no slot |
| RepoCache.CacheSlot.Clone | sync_docs.py:114 | a clone yields the repository, or fails, possibly leaving a partial directory |
| RepoCache.EnsureRequestedRef | sync_docs.py:124-137 | the final check on the slot equals the reference final check |
| RepoCache.GetSourceRepo | sync_docs.py:82-141 | the new slot state and the result equal the reference state machine |
| RepoCache.ReadyIsConsistent | sync_docs.py:124-139 | a returned repository is the slot's content, and is on the requested branch, or on the tag's commit when the name is a tag |
| RepoCache.InvalidSlotSelfHeals | sync_docs.py:106-108 | a slot that is not a repository is removed and recloned: the same outcome as an absent slot |
| RepoCache.ExistingSlotNeverClones | sync_docs.py:109-111 | the outcome for a valid slot does not depend on a clone's result, and the slot stays a repository |
| RepoCache.FetchFailureStops | sync_docs.py:91 | a failed fetch returns no repository and leaves the slot untouched |
| RepoCache.CloneFailureCleansUp | sync_docs.py:116-123 | a failed clone returns no repository and leaves no slot |
| RepoCache.TrackingBranchPulled | sync_docs.py:94-98 | on a tracking branch, a successful pull returns and keeps the fetched repository with the branch on the pull's landing commit, which is the fetched tip of the upstream when the pull is a fast-forward to it; a failed pull returns `PullFailed` and keeps the checked-out repository |
| RepoCache.NonTrackingBranchReset | sync_docs.py:100-102 | on a non-tracking branch, the branch is reset to `origin/<branch>` whatever it pointed at; without that ref the sync fails |
| RepoCache.DetachedTagChecked | sync_docs.py:124-127 | a detached HEAD named by a tag succeeds exactly when it is at the tag's commit, and otherwise fails with a tag mismatch |
| RepoCache.WrongBranchRetriedOnce | sync_docs.py:130-137 | an attached HEAD on another branch succeeds exactly when the one extra checkout lands on the requested branch |
| TocTree.ValidPathExtend | assets/js/page-toc.js:65-66 | one more index below a node addresses one of that node's children |
| TocTree.AppendAtKeeps | assets/js/page-toc.js:78 | appendChild keeps every existing node in place with its own fields |
| TocTree.AppendAtTarget | assets/js/page-toc.js:94 | appendChild adds the new children after the node's existing ones |
| TocTree.AppendAtNothing | assets/js/page-toc.js:78 | appending no children leaves the tree as it was |
| TocTree.AppendAtTwice | assets/js/page-toc.js:75-83 | appending children one at a time is the same as appending them all at once |
| TocTree.AppendAtCount | assets/js/page-toc.js:94 | appending adds exactly the items of the appended subtrees |
| PageToc.PoppedOk | assets/js/page-toc.js:60-62 | after popping, the stack keeps its invariant and is at most the heading's level deep |
| PageToc.AppendKeepsStackOk | assets/js/page-toc.js:78 | appending anywhere keeps every open list in place |
| PageToc.NestedOk | assets/js/page-toc.js:64-91 | the nesting step keeps the stack invariant; when it nests, the stack reaches the level, otherwise nothing changes |
| PageToc.NestedKeeps | assets/js/page-toc.js:64-91 | the nesting step keeps every existing node in place |
| PageToc.PlaceOk | assets/js/page-toc.js:36-96 | the stack is never empty, its bottom is the root nav, and the list at depth k > 0 is the child list for level k + 1 |
| PageToc.PlaceSkipsMissingId | assets/js/page-toc.js:39-44 | a heading without an id leaves the tree and the stack unchanged |
| PageToc.PlaceAddsItem | assets/js/page-toc.js:46-58 | a heading with an id adds exactly one item with href `#`+id and the heading's text, as the last child of the top list; the stack is at most the level deep |
| PageToc.MissingListsCount | assets/js/page-toc.js:75-83 | the created child lists hold no items |
| PageToc.PlaceNestsMissingLevels | assets/js/page-toc.js:74-83 | when nesting, one child list per missing level i + 1 is appended to the same last item and pushed, and the stack reaches the level |
| PageToc.OpenListsNeedRootItems | assets/js/page-toc.js:68-72 | a list other than the root is open only once the root has children |
| PageToc.PlaceIntoEmptyRoot | assets/js/page-toc.js:86-91 | while the root is empty, no child list is created and the item goes straight into the root |
| PageToc.PlaceRootGrows | assets/js/page-toc.js:94 | the root never loses a child, and gains one when an item lands in an empty root |
| PageToc.PlaceKeeps | assets/js/page-toc.js:38-96 | a step keeps every existing node in place with its own fields |
| PageToc.PlaceAllCount | assets/js/page-toc.js:38-96 | the tree holds exactly one item per heading with an id |
| PageToc.BuiltTocNonEmpty | assets/js/page-toc.js:100 | the root has children exactly when some heading has an id |
| PageToc.SkipTwoLevels | assets/js/page-toc.js:74-83 | an h3 after a lone h1 creates two sibling child lists under the h1 item |
| PageToc.BackToSecondLevel | assets/js/page-toc.js:60-62 | a following h2 pops back to the level-2 list and lands there |
| PageToc.SkippedLevelSiblings | assets/js/page-toc.js:74-83 | after h1, h3, h2 the h2 item sits in the first sibling list and is rendered before the h3 item |
| PageToc.NestMissingLevels | assets/js/page-toc.js:64-92 | the child-list loop equals the reference nesting step |
| PageToc.AddHeading | assets/js/page-toc.js:39-95 | one `forEach` step equals the reference step |
| PageToc.BuildToc | assets/js/page-toc.js:36-96 | the loop builds the reference tree with one item per heading with an id; each item is at its own distinct place and carries that heading's level, href and text, in document order |
| PageToc.RunPageToc | assets/js/page-toc.js:1-123 | the handler equals the reference page update |
| PageToc.InsertsIff | assets/js/page-toc.js:3-16 | the container is inserted exactly when none exists, there is main content, some heading has an id, and the active sidebar link is inside an item |
| PageToc.InsertedAfterActiveItem | assets/js/page-toc.js:100-123 | the container is placed immediately after the active item and the rest of the sidebar list is unchanged; otherwise the page is left alone |
| PageToc.ScriptRunsOnce | assets/js/page-toc.js:2-5 | running the handler a second time changes nothing |

## Left out

- `load_config` (sync_docs.py:36-50): it parses YAML files with a foreign parser. The configuration arrives as a `Value`.
- The `__main__` driver and its `os.walk` listing (sync_docs.py:219-267), and every `print`: these are orchestration and logging.
- `list_directory_contents` (sync_docs.py:15-33, called at 138 and 173): it is a debug listing with no effect.
- PipelineRerun.RerunChangesNothing: it assumes a valid filesystem and independent file patterns: two patterns with the same target are the same pattern of the same set, and no pattern's target is another pattern's source. Without that, the second run can read a file the first run wrote and write different text.
- `yaml.dump` formatting: it is the parameter `serialize`, because PyYAML's flow-style rules are not part of this model.
- GitPython and the network: fetch, clone, tracking resolution and ref resolution are not modelled.
  - Their answers are the fields of `GitEnv`.
  - `local_repo_path` (sync_docs.py:83) is the one `CacheSlot`.
  - `repo_url` is not modelled.
- The generic `except Exception` paths of `get_source_repo` (sync_docs.py:120-123, 140-141) are covered only where the control flow is known.
  - A non-git exception from a clone is a clone failure.
  - A detached HEAD after the retry checkout makes `active_branch` raise, and the model returns `Unexpected`.
  - Errors from `rmtree` or from `Repo(...)` other than an invalid repository are not modelled.
- RepoCache.CacheSlot.Pull: git's merge is not modelled. The commit the pull leaves the branch on is an input (`GitEnv.pull`). So the model does not say that a branch behind its upstream is fast-forwarded, that a branch ahead of it stays put, or where a merge lands. RepoCache.TrackingBranchPulled states the fast-forward result under the hypothesis that the pull lands on the fetched upstream tip.
- RepoCache.GetSourceRepo: the result is a `Result` with a reason where the script returns `None`. The reason stands for the message the script prints.
- Operating-system behaviour beyond the abstract filesystem is not modelled: permissions, symbolic links, encodings other than "undecodable as UTF-8", and read errors.
  - Paths are compared as strings, so `..` and duplicate separators are not normalised.
  - The per-file `except Exception` is modelled for undecodable input and for a failed open-for-write.
- The `.get` defaults of `process_source_documents` are modelled inside the types.
  - A missing `base_repo_path` is the empty string.
  - A missing `markdown_files` and a missing `default_front_matter` are empty.
  - Non-string or non-list values in those fields, which would raise outside the handlers, are excluded by the types.
- `image_dirs` is only validated (sync_docs.py:74-75) and is not otherwise modelled.
- `str.title` is modelled over ASCII letters only. Other characters count as uncased, and Unicode case mapping is not modelled. `parseInt` of the tag name is assumed to give 1..6 (`ValidHeading`).
- The browser is not modelled.
  - `DOMContentLoaded`, `querySelector`, `closest` and `insertBefore` are abstracted by the `Page` record: whether a container, the main content and an active link exist, and the sidebar list that holds the active item.
  - The wrapper `div` and its ids and classes are implicit in `TocContainer`.
  - The `a` element of an item is its `href` and `text` fields.
  - The class names are implicit in `Li.level` and `ChildList(level)`.
- The DOM and the filesystem are values, not shared mutable nodes. The model does not capture aliasing between DOM nodes; `parentStack` holds paths into the tree instead of node references.
