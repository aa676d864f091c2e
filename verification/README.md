# auto_tagger decision layer, modelled in Dafny

This project models the decision logic of the szurubooru-toolkit
`auto_tagger` script (`src/szurubooru_toolkit/scripts/auto_tagger.py`). The
script takes a post query, asks SauceNAO (reverse image search) and/or
Deepbooru (a local tagging model) for tags, merges them into each post's
tags, and pushes the post back to the szurubooru server. Every collaborator
is replaced by the value it answered with. The server's post list, the
SauceNAO answer (raw tags, sanitized tags, rating, short and long quota),
the Deepbooru answer (tags, rating) and the tags of related posts are all
inputs. What is left is deterministic:

- `args.dfy` (`Args`): the `type:` query check, and the comma split of
  `--add-tags`/`--remove-tags`, with its inverse `Join`.
- `quota.dfy` (`Quota`): the SauceNAO quota decision. It covers the 35 s
  back-off, the daily limit, and switching SauceNAO off in favour of Deepbooru.
- `relations.dfy` (`RelationTags`): copying tags from related posts. The
  category filter `not c == 'default' or not c == 'meta'` holds for every
  string, so every tag is copied.
- `tag_lists.dfy` (`TagLists`): the set-union merge, Python's `list.remove`,
  and the remove-tags comprehension. On a duplicate-free list the
  comprehension equals a plain order-preserving filter.
- `placeholders.dfy` (`Placeholders`): removing `deepbooru`/`tagme` while
  iterating over the same list. This is an imperative index loop that follows
  CPython's list iterator. On a duplicate-free list it is proved equal to a
  functional `Sweep`; with duplicates the two can differ. The list the loop
  sweeps before an update is always duplicate-free (`Tagger.EditedTags`),
  so `Step` uses `Sweep`. `Tagger.PatchTags` runs the loop on that list
  and is proved to give the same result. When two placeholders are adjacent, the second one
  is skipped and survives.
- `tagger.dfy` (`Tagger`): one loop iteration (`Step`), the loop
  (`RunLoop`), `main` (`Main`), and lemmas about the counters and updates
  across the whole run.
- `common.dfy` (`Common`): `Option` and `Result`.

Behaviour read off the code that is easy to miss:

- After the 35 s sleep, the code does not call SauceNAO again for the same
  post. It goes on with the answer it already has. `Step` reports the
  back-off as a boolean and carries on.
- `tmp_file` is `None` when the server is public and Deepbooru is off. Then
  `os.path.exists(tmp_file)` (line 256) raises `TypeError` in CPython, before
  the post is updated. The catch-all around `main` ends the run.
  `Step` returns `Crash(NoTempFile, …)` in that configuration.
- With `deepbooru_forced` set but `deepbooru_enabled` unset, `deepbooru` is
  never bound. Line 231 raises, and the model returns
  `Crash(ClassifierNotLoaded, …)`.
- The patched list can be empty even though a post is pushed. This happens
  when Deepbooru's only answer is `tagme` and nothing else was found. The
  check at lines 262-263 tests the found tags, not the patched list.
- `int(total_posts) - index - 1` is charged as written. It can be negative
  when the server announces fewer posts than it yields.

## Model

| member | source | states |
|---|---|---|
| Args.Occurs | src/szurubooru_toolkit/scripts/auto_tagger.py:61 | Python's `in` on strings: true exactly when the token occurs at some position of the query |
| Args.ParseArgs | src/szurubooru_toolkit/scripts/auto_tagger.py:61-79 | a query is refused iff it contains `type:`; otherwise the query is kept, both tag arguments are converted, and the quote warning fires iff the query has a `'` |
| Args.TagListArg | src/szurubooru_toolkit/scripts/auto_tagger.py:76-79 | a present non-empty argument becomes a non-empty list of comma-free pieces whose comma join is the argument; an absent or empty one becomes no list |
| Args.Split | src/szurubooru_toolkit/scripts/auto_tagger.py:77 | `str.split(',')`: at least one piece, no piece holds a comma, and joining the pieces with commas gives back the string |
| Args.SplitJoin | src/szurubooru_toolkit/scripts/auto_tagger.py:76-79 | the other direction of the round trip: splitting the join of comma-free pieces gives the pieces back |
| Quota.ClassifyQuota | src/szurubooru_toolkit/scripts/auto_tagger.py:95-109 | limit reached iff the long count is 0; back-off iff the long count is non-zero and the short count is 0; SauceNAO is switched off iff the limit is reached and Deepbooru is enabled, otherwise the flag is unchanged |
| RelationTags.CopiesRelationTag | src/szurubooru_toolkit/scripts/auto_tagger.py:137 | the relation filter is true for every category string |
| RelationTags.AppendRelationTags | src/szurubooru_toolkit/scripts/auto_tagger.py:136-138 | the inner loop appends the names of all of one related post's tags, in order |
| RelationTags.SetTagsFromRelations | src/szurubooru_toolkit/scripts/auto_tagger.py:130-138 | the post's list grows by the names of every tag of every related post, in relation order, nothing filtered |
| RelationTags.MetaAndDefaultTagsCopied | src/szurubooru_toolkit/scripts/auto_tagger.py:137-138 | any tag of any related post, `meta` and `default` ones included, ends up in the post's list |
| TagLists.Dedup | src/szurubooru_toolkit/scripts/auto_tagger.py:224 | `list(set(...))`: a duplicate-free list with exactly the members of its input |
| TagLists.Merge | src/szurubooru_toolkit/scripts/auto_tagger.py:223-226 | the merged list is duplicate-free and its members are exactly old ∪ found ∪ add-tags (add-tags only when given) |
| TagLists.NoDupPermutation | src/szurubooru_toolkit/scripts/auto_tagger.py:237 | any two duplicate-free listings of the same tags are permutations, so the fixed order stands for any set iteration order |
| TagLists.RemoveFirst | src/szurubooru_toolkit/scripts/auto_tagger.py:260 | `list.remove` needs the tag present and shortens the list by one |
| TagLists.RemoveFirstDropsOne | src/szurubooru_toolkit/scripts/auto_tagger.py:260 | `list.remove` drops exactly one copy of the tag and keeps every other element |
| TagLists.RemoveFirstFilters | src/szurubooru_toolkit/scripts/auto_tagger.py:260 | on a duplicate-free list, removing a present tag is filtering it out |
| TagLists.RemoveTags | src/szurubooru_toolkit/scripts/auto_tagger.py:259-260 | the remove-tags comprehension, one `list.remove` per listed tag still present; on a duplicate-free list it keeps exactly the unlisted tags, in their original relative order |
| Placeholders.RemovePlaceholders | src/szurubooru_toolkit/scripts/auto_tagger.py:264 | the remove-while-iterating loop keeps every non-placeholder tag in order, and on a duplicate-free list its result is `Sweep` |
| Placeholders.SweepKeepsOthers | src/szurubooru_toolkit/scripts/auto_tagger.py:263-264 | `Sweep`, the placeholder loop on a duplicate-free list, drops nothing but placeholders and keeps the other tags in order |
| Placeholders.SweepSublist | src/szurubooru_toolkit/scripts/auto_tagger.py:264 | on a duplicate-free list `Sweep` only keeps input tags and stays duplicate-free |
| Placeholders.SweepRemovesSinglePlaceholder | src/szurubooru_toolkit/scripts/auto_tagger.py:262-264 | a duplicate-free list that does not hold both placeholders loses the one it holds |
| Placeholders.AdjacentPlaceholderSurvives | src/szurubooru_toolkit/scripts/auto_tagger.py:264 | when the two placeholders are adjacent after placeholder-free tags, the first is removed and the second is skipped and kept |
| Tagger.MergedTags | src/szurubooru_toolkit/scripts/auto_tagger.py:216-239 | once a merge ran, the list is duplicate-free and holds exactly the old, SauceNAO, related, Deepbooru and add tags that apply; with no merge the post's tags are untouched |
| Tagger.EditedTags | src/szurubooru_toolkit/scripts/auto_tagger.py:259-260 | once a merge ran, the list after the remove-tags step is duplicate-free, equals the order-preserving filter of the merged list, and holds exactly the discovered tags not listed for removal |
| Tagger.PatchedTags | src/szurubooru_toolkit/scripts/auto_tagger.py:262-265 | once a merge ran, the pushed list is duplicate-free. It holds only discovered tags that are not in remove-tags, and every such tag that is not a placeholder. It holds no placeholder unless both were discovered and neither is listed for removal |
| Tagger.PatchTags | src/szurubooru_toolkit/scripts/auto_tagger.py:264 | the CPython-style loop, run on the edited list, always keeps its non-placeholder tags in order, and once a merge ran it yields exactly the list `Step` pushes |
| Tagger.Step | src/szurubooru_toolkit/scripts/auto_tagger.py:209-269 | one iteration. It crashes iff Deepbooru is forced but not loaded or no file was downloaded. It pushes the post iff the final `tags` is non-empty. `tagged` is bumped on raw SauceNAO tags. When Deepbooru runs, exactly one of its counters moves. An empty result without it adds one untagged. It stops iff the limit is reached with Deepbooru off, charging `total - index - 1` |
| Tagger.StepAccounting | src/szurubooru_toolkit/scripts/auto_tagger.py:248-269 | each completed iteration adds exactly one to untagged-plus-pushed, plus the early-stop charge |
| Tagger.RunLoop | src/szurubooru_toolkit/scripts/auto_tagger.py:199-269 | a finished loop has counted every visited post once, as pushed or untagged, plus the charge for the unvisited rest of the announced total when it stopped early; posts already pushed stay pushed, in order |
| Tagger.RunKeepsASource | src/szurubooru_toolkit/scripts/auto_tagger.py:107-108 | if SauceNAO or Deepbooru is on when the loop starts, one of them is still on when it ends |
| Tagger.LimitEndsRun | src/szurubooru_toolkit/scripts/auto_tagger.py:267-269 | with Deepbooru neither enabled nor forced, on a private server, a post whose search reports the daily limit ends the run and charges `total - index - 1` unvisited posts as untagged |
| Tagger.Arguments | src/szurubooru_toolkit/scripts/auto_tagger.py:147-165 | the upload-media post id becomes the query with no tag lists and is never refused; otherwise the command line is refused iff its query holds `type:`, and its query and tag lists are used |
| Tagger.Main | src/szurubooru_toolkit/scripts/auto_tagger.py:147-178 | nothing runs iff both sources are off. A command-line query holding `type:` is refused before any post is fetched. A run uses the upload-media post id, else the command-line query |
| Tagger.MainAccounting | src/szurubooru_toolkit/scripts/auto_tagger.py:199-269 | a finished run's untagged count plus the number of pushed posts equals the number of posts given, or the announced total after an early stop |
| Tagger.ClassifierOnlyScenario | src/szurubooru_toolkit/scripts/auto_tagger.py:230-249 | Deepbooru alone, answering `cat`, `outdoors` for an untagged post: the post is pushed with exactly those tags and the Deepbooru counter is 1 |

## Left out

- The `--sankaku_url` single-post path (lines 184-197). It scrapes a page and updates the post, and both are external calls.
- `download_media` (lines 114-127), `os.remove`, `shrink_img` and the 2,000,000-byte size check are file and network I/O. Only whether a file was downloaded is kept, in `Downloaded`.
- The post's `source` field: `collect_sources` (line 93) is not part of this model. The `DeepBooru`/`Deepbooru` marker rewriting (lines 241-246) depends on it, and Python's `replace` gives it no clean contract.
- `sanitize_tags` is not part of this model. SauceNAO's answer carries both the raw and the sanitized tags. The raw ones drive `tagged`; the sanitized ones drive the rest.
- `sleep(35)` is the `backoff` flag. There is no time in the model.
- argparse, logging, the single-quote warning text, tqdm, `hide_progress`, and the final summary (lines 271-279).
- The `skipped` counter. This script never changes it; it only prints it.
- `statistics` is taken to add the amounts it is given. Its code is not part of this model.
- The catch-all `@logger.catch` only appears as the `Crash`/`Crashed` outcomes that end the run.
- Merge: Python's `list(set().union(...))` lists the tags in hash order, which the model cannot know. The model fixes first-occurrence order, and `NoDupPermutation` shows the choice changes only the order. When both placeholders are kept, the hash order decides whether one survives the sweep and which one: only an adjacent pair leaves one (`AdjacentPlaceholderSurvives`). So the order can change which tags are pushed, not only their order. `PatchedTags` states only what holds for every order.
- `config.auto_tagger['saucenao_enabled']` is process-wide. When upload-media calls `main` again, it still holds what the last run left. `Main` starts every run from the configured flag.
- An empty `--add-tags ''`/`--remove-tags ''` stays `''` in Python. The model turns it into no list. The two behave the same, since every later use tests the value for truth.
