# tach pytest plugin: test-selection decisions in Dafny

This project models the test-impact selection logic of tach's pytest plugin
(`python/tach/pytest_plugin.py`). At configuration time the plugin decides
whether skipping is enabled and which base revision to diff against. During
collection it asks an impact oracle which test files and items are unaffected
by the changed files. It records those as "would skip", and removes them only
when skipping is enabled. It reports what was (or could be) skipped, with a
time-saved estimate taken from a ledger of cached test durations. At the end
of the run it warns about would-skip tests that failed and merges the run's
durations into the ledger.

Modules, one per part of the plugin:

- `Text`: the string operations the plugin uses (`strip`, `split("/")[-1]`,
  `"::" in s`, `split("::")[0]`, substring containment).
- `Seqs`: filtered list comprehensions.
- `DefaultBranch`: `_get_default_branch`.
- `Configure`: `pytest_configure`, as a function from options and the
  outcomes of the external calls to "disabled", "usage error" or the stored
  settings.
- `State`: `TachPluginState` and the handler attributes the plugin reads and
  writes, as classes updated in place, plus the runner's item list. The
  invariant `PluginState.Valid()` says that the would-skip paths equal the
  handler's removed paths. It also says that each of them resolves outside the
  changed files and is removable by the oracle (the forced-keep property).
- `Selection`: `pytest_collect_file`, `pytest_collection_modifyitems` (the
  in-place removal loop) and `_count_items`.
- `Durations`: the duration ledger: the cache read and write, the estimate
  loop, and the recording merge.
- `Validation`: `pytest_terminal_summary`, with its would-skip failure check.
- `Reporter`: `_pluralize`, `_format_duration`, `_format_paths` and the
  structure of `pytest_report_collectionfinish`.

The plugin state missing from the runner's stash (the plugin disabled) is a
null `PluginState?`. Inputs stand in for the outside world:

- `Path.resolve` is a function `resolve: string -> string`.
- The oracle `should_remove_items` is a function `shouldRemove: string -> bool`.
- The git calls, the change resolver and the project-configuration lookup are
  given as their outcomes.
- The runner's cache is a `CacheStore` value.

Durations are exact `real`s.

Behaviour of the code worth noting:

- `pytest_collect_file` records a removable file in `would_skip_paths` and
  calls `remove_test_path`, whether or not skipping is enabled. Both sets are
  filled in every run, and they are always equal (`PluginState.Valid`).
- `_estimate_skipped_duration` gives no estimate whenever the matching total
  is not positive, not only when no entry matches.
  `Durations.EstimatePresentIffMatch` shows that the two agree when every
  cached duration is positive.
- The item-level filter asks the oracle about the unresolved `item.path`, and
  it does not exempt changed files. Only the file-level filter resolves the
  path and forces changed files to be kept.
- `pytest_terminal_summary` returns before recording durations when there is
  no state.
- `_count_items` is not called anywhere in the plugin. It is modelled on its
  own.

## Model

| member | source | states |
|---|---|---|
| `Text.LastComponent` | python/tach/pytest_plugin.py:77 | the result is a suffix of the input with no `/` in it, preceded by a `/` whenever it is shorter than the input |
| `Text.Strip` | python/tach/pytest_plugin.py:77 | `str.strip()`: the result is the slice of the input left once whitespace is dropped at both ends; everything cut off is whitespace and the result neither starts nor ends with whitespace |
| `Text.FilePart` | python/tach/pytest_plugin.py:179-180 | the result is the prefix of the node id before its first `::`, or the whole id exactly when it has no `::` |
| `DefaultBranch.GetDefaultBranch` | python/tach/pytest_plugin.py:58-101 | if the remote HEAD lookup succeeds, the result is the last `/` component of its trimmed output; otherwise "main" if it exists, else "master" if it exists, else "main" |
| `Configure.Head` | python/tach/pytest_plugin.py:228 | an empty or missing `--tach-head` becomes None; any other head is kept |
| `Configure.Base` | python/tach/pytest_plugin.py:234-239 | the explicit `--tach-base` when given, otherwise the detected default branch |
| `Configure.UsageMessage` | python/tach/pytest_plugin.py:252-256 | the error message contains the base name and the `git fetch origin base:base` remedy |
| `Configure.Configure` | python/tach/pytest_plugin.py:219-274 | no configuration means no state. A resolution failure is a usage error naming the base iff skipping was requested, and otherwise means no state. On success the settings hold skip_enabled = flag or base given or non-empty head, the chosen base, the normalised head, the changed files and exactly their resolved forms |
| `State.PluginState.constructor` | python/tach/pytest_plugin.py:259-274 | the stored state copies the settings, starts with no would-skip paths, and satisfies the invariant |
| `State.Handler.RemoveTestPath` | python/tach/pytest_plugin.py:315 | `remove_test_path` adds the path to the handler's removed set and changes nothing else |
| `State.RemoveFirst` | python/tach/pytest_plugin.py:333 | `list.remove` removes the first occurrence of the element: the result is the list before that occurrence followed by the list after it, so one shorter and with one copy fewer in its multiset |
| `State.ItemList.Remove` | python/tach/pytest_plugin.py:333 | the runner's list loses the first occurrence of the item |
| `Selection.CollectFile` | python/tach/pytest_plugin.py:290-318 | the native result is always returned unchanged. Without state, or for an empty result, nothing is recorded. A file whose resolved path is changed is never recorded. Any other file is added to would-skip iff the oracle calls it removable, regardless of skip_enabled. The state invariant is kept |
| `Selection.RemoveNextMarked` | python/tach/pytest_plugin.py:332-333 | removing the next item of the removable list from the partly filtered list removes exactly the next removable item |
| `Selection.DropAllMarked` | python/tach/pytest_plugin.py:332-333 | once every removable item is removed, what is left is the non-removable items in their original order |
| `Selection.ModifyItems` | python/tach/pytest_plugin.py:321-334 | the stored count equals the number of removable items, whatever skip_enabled is. When enabled, the list becomes exactly the non-removable items in order, and the deselected list is exactly the removable ones. When disabled, the list is untouched and nothing is deselected |
| `Selection.SkippingShrinksRun` | python/tach/pytest_plugin.py:325-333 | with skipping, the number of items run is the total minus the removable count, so never more than without skipping |
| `Selection.CountItems` | python/tach/pytest_plugin.py:277-287 | the count equals the number of test items reached by flattening nested collectors |
| `Selection.CountFrom` | python/tach/pytest_plugin.py:279-287 | counting from the i-th child equals the number of test items under the remaining children |
| `Durations.CachedDurations` | python/tach/pytest_plugin.py:142-152 | a missing cache or an unset key reads as the empty ledger; otherwise it reads the stored ledger |
| `Durations.SaveDurations` | python/tach/pytest_plugin.py:155-159 | after saving, reading the cache gives back the saved ledger; without a cache nothing changes |
| `Durations.ResolvedSet` | python/tach/pytest_plugin.py:174 | the resolved set contains exactly the resolved forms of the paths |
| `Durations.SumOfRemove` | python/tach/pytest_plugin.py:176-185 | the sum of matching durations does not depend on the order in which the entries are visited |
| `Durations.EstimateSkippedDuration` | python/tach/pytest_plugin.py:162-189 | the loop returns the sum of the durations whose node id has a `::` and whose file part resolves into the skipped set. It returns None for no paths, an empty ledger, or a total that is not positive. Any estimate is positive |
| `Durations.SumOfNoMatch` | python/tach/pytest_plugin.py:176-185 | entries that do not match (no `::`, or a file outside the set) add nothing |
| `Durations.SumOfPositive` | python/tach/pytest_plugin.py:176-185 | with positive durations, the total is never negative, and it is positive when an entry matches |
| `Durations.EstimatePresentIffMatch` | python/tach/pytest_plugin.py:166-189 | with positive durations, an estimate exists iff the skipped set is non-empty and some cached node id's file resolves into it |
| `Durations.FilePartAt` | python/tach/pytest_plugin.py:180 | the file part ends at the first separator |
| `Durations.NodeIdFilePart` | python/tach/pytest_plugin.py:177-180 | "file::test" with a colon-free file name splits back into that file |
| `Durations.NodeIdMatches` | python/tach/pytest_plugin.py:179-184 | such a node id matches exactly when its file resolves into the skipped set |
| `Durations.EstimateSecondOnly` | python/tach/pytest_plugin.py:162-189 | for a two-entry ledger where only the second entry is in the skipped file, the estimate is that entry's duration |
| `Durations.EstimateTwoFiles` | python/tach/pytest_plugin.py:162-189 | with cached durations 5.0 for `x_test.py::test_1` and 7.0 for `y_test.py::test_2`, skipping `y_test.py` is estimated at exactly 7.0 |
| `Durations.AllReports` | python/tach/pytest_plugin.py:497-499 | the reports gathered number exactly the passed, failed and error reports together |
| `Durations.RecordTestDurations` | python/tach/pytest_plugin.py:494-514 | nothing is saved without reports. Otherwise the saved ledger is the cached one updated by each "call" report in order |
| `Durations.MergeKeys` | python/tach/pytest_plugin.py:504-511 | the merged ledger's keys are the old keys plus the node ids of the recorded reports |
| `Durations.MergePreserves` | python/tach/pytest_plugin.py:504-511 | an entry whose node id was not recorded in this run survives the merge unchanged |
| `Durations.MergeLastWins` | python/tach/pytest_plugin.py:507-511 | the last "call" report for a node id decides its entry; later reports overwrite earlier ones |
| `Validation.FailedWouldSkip` | python/tach/pytest_plugin.py:462-474 | the warned list is the node ids of the failed reports with a non-empty fspath resolving into the resolved would-skip set, in report order |
| `Validation.FailedWouldSkipMembers` | python/tach/pytest_plugin.py:467-474 | a node id is warned about iff some failed report with that id has a non-empty fspath resolving to the resolved form of some would-skip path |
| `Validation.TerminalSummary` | python/tach/pytest_plugin.py:449-491 | without state nothing happens, not even recording. Otherwise the run is marked complete. The warning lists the would-skip failures only when skipping is disabled and some path would be skipped, and is empty otherwise. The durations are recorded as by `RecordTestDurations` |
| `Reporter.Pluralize` | python/tach/pytest_plugin.py:337-339 | the result starts with the word and is one `s` longer exactly when the count is not 1 |
| `Reporter.FormatDuration` | python/tach/pytest_plugin.py:121-131 | below 60 s: seconds. Below 3600 s: whole minutes in 1..59 and seconds in [0, 60) that add back up to the input. Otherwise: hours at least 1 and minutes below 60, with the input inside that minute |
| `Reporter.PathLines` | python/tach/pytest_plugin.py:381-384 | one path line per path, in order |
| `Reporter.FormatPaths` | python/tach/pytest_plugin.py:376-388 | all paths when verbose or at most five. Otherwise exactly the first five plus one "... and N more" line with N = count - 5 |
| `Reporter.ChangedSection` | python/tach/pytest_plugin.py:390-399 | `_format_changed`: empty iff no file changed; otherwise a header counting the changed files with `file` pluralised by that count, followed by one `+` line per changed file, in listing order |
| `Reporter.Annotation` | python/tach/pytest_plugin.py:402-406 | the time-saved note appears iff the estimate is present and non-zero (a truthy `estimated_duration`), and it is in seconds iff the estimate is under a minute |
| `Reporter.ReportLines` | python/tach/pytest_plugin.py:401-446 | no lines iff no test item is removable. Otherwise the disable hint appears iff skipping is off; a dry run opens with the "unaffected" summary and the hint; a skipping run contains the "Skipped" summary. Each summary carries the removable count, the removed-file count, their pluralised nouns and the annotation |
| `Reporter.ReportPathsFrom` | python/tach/pytest_plugin.py:390-446 | `+` lines are changed files and appear only in a verbose report, which lists every changed file; `?` lines are removed files of a verbose dry run; `-` lines are removed files of a skipping run |
| `Reporter.ReportLineCount` | python/tach/pytest_plugin.py:369-446 | the report is empty iff no item is removable. Otherwise its line count is that of its shape: enabled with optional changed section and truncated paths; dry-run verbose with changed section, header and all paths; or dry-run with two lines |
| `Reporter.ReportListsRemoved` | python/tach/pytest_plugin.py:376-417 | when skipping is enabled, each removed path appears in the report when verbose, when there are at most five, or when it is among the first five |
| `Reporter.Listing` | python/tach/pytest_plugin.py:379 | `list(s)` of a set has the set's size and exactly its elements |
| `Reporter.ReportCollectionFinish` | python/tach/pytest_plugin.py:342-446 | no lines without state. Lines are empty iff no item is removable. Otherwise the line count matches the state's shape, and the report shows the removable count, the removed paths, the changed files and the duration estimate of the would-skip paths |

## Left out

- Terminal styling (`_styled`, `_green`, … at python/tach/pytest_plugin.py:28-55) and the exact wording of the report and warning lines. Lines are modelled by kind and by the values they show.
- The git subprocesses of `_get_default_branch`. Their outcomes are inputs: the symbolic-ref output, and whether a branch exists.
- `fs.find_project_config_root`, `parse_project_config` and `get_changed_files` are external calls. They become a "configuration found" flag and a change-resolution function that may fail.
- The compiled `TachPytestPluginHandler`: `should_remove_items` is an uninterpreted function of the path. `remove_test_path` is assumed to add the path to `removed_test_paths`. A new handler is assumed to start with an empty `removed_test_paths`, `num_removed_items` at 0 and `tests_ran_to_completion` false.
- `Path.resolve` is an uninterpreted function. Its exceptions are not modelled, including the one `_estimate_skipped_duration` swallows (python/tach/pytest_plugin.py:186-187).
- The handler receives `all_affected_modules` as resolved `Path`s but is queried with `str(resolved_path)`. Paths are strings throughout, so both are assumed to be the same strings.
- pytest's hook machinery, the stash, `pytest_addoption` (the options are a datatype), `pytest_deselected` (the deselected items are returned) and the cache's JSON persistence (a `CacheStore` value; a corrupt value reads as unset).
- `Reporter.FormatDuration`: models the bucket and the integer minute and hour arithmetic, not the `:.1f`/`:.0f` rounding of the printed numbers.
- Floating point: durations are exact reals, so the order in which the ledger is summed does not matter. The ledger is a map, not an insertion-ordered dict.
- `Text.Strip` treats only ASCII whitespace as whitespace, not Python's full Unicode whitespace set.
- `Reporter.ReportCollectionFinish`: lists the changed files in an arbitrary order, not `sorted` (python/tach/pytest_plugin.py:397). Its contract describes the lines through an existentially chosen view of the state's sets, not one fixed listing.
- `output.strip().split("\n")` splitting a path that itself contains a newline.
- python/tests/test_sync.py is an integration test of `tach_sync` on real directories. It is not part of this model.
