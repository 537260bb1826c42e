# Repository file synchroniser, modelled in Dafny

This project models `check_and_download_missing_files` from `hf_download.py`,
the routine that brings a local directory up to date with a model repository.
It runs one session in three stages:

1. **Path filter.** The repository listing is filtered by name. Hidden paths
   are always dropped: a path that starts with `.` or contains `/.`. An
   optional include list is an any-match gate. An optional exclude list is an
   any-match veto. A pattern that starts with `*` matches by suffix (the rest
   of the pattern). Any other pattern matches by substring.
2. **Plan builder.** Each kept path is paired with `local_dir / path`. The
   pair is planned when the local file is missing, or when the verify-only
   lookup of the remote file fails.
3. **Fetch loop.** Every planned pair gets one forced, resumable download.
   A failure is caught for that item alone, and the loop goes on.

If the listing call fails, nothing else happens and the error is reported.

The code works by updating local lists in loops. So each stage is a method
with a loop (`FilterFiles`, `AnyPatternMatches`, `BuildPlan`, `DownloadAll`,
`CheckAndDownloadMissingFiles`). Each method is proved equal to a
specification function (`Filter`, `AnyMatch`, `Plan`, `FetchAll`). The
properties the code promises are then proved as lemmas about those functions.

The calls into the repository service and the file system are parameters:

- `listing: Result<seq<string>, string>`: what the listing call returned, or
  its error message.
- `pathExists: string -> bool`: whether a local path exists (`Path.exists`,
  which is also true of a directory).
- `verifies: string -> bool`: whether the verify-only download of a remote path
  returns without raising.
- `fetch: string -> Result<string, string>`: what the forced download of a
  remote path returns (the path it reports) or the message of what it raised.

The code prints its results instead of returning them. The model returns a
`SessionReport` that holds what is printed: the number of listed files, the
checked files, the plan, and one outcome per planned file.

Modules: `Wrappers` (Option, Result), `Strings` (prefix, suffix and substring
tests), `PathFilter`, `Reconcile` (the plan), `Fetch`, `Session`.

Two things the code does not do:

- It does not de-duplicate the listing. A path listed twice is planned and
  downloaded twice (`PathFilter.FilterKeepsDuplicates`,
  `Reconcile.PlanKeepsDuplicates`, `Session.DuplicateListingIsFetchedTwice`).
  For example, with `a = "a.safetensors"`, `b = "b.json"`, include
  `*.safetensors` and nothing on disk, the listing `a, b, a` plans `a` twice.
- It keeps no success or failure counters. It prints one line per outcome,
  which `FetchOutcome` records.

## Model

| member | source | states |
|---|---|---|
| `Strings.StartsWith` | hf_download.py:47 | Python's `str.startswith`: the string begins with the prefix; the empty prefix begins every string (definition, no contract of its own) |
| `Strings.EndsWith` | hf_download.py:55 | Python's `str.endswith`: the string ends with the suffix; the empty suffix ends every string (definition, no contract of its own) |
| `Strings.Contains` | hf_download.py:58 | Python's `sub in s` as a scan; its meaning is proved by `Strings.ContainsIffOccurs` |
| `PathFilter.IsHidden` | hf_download.py:47 | a path is hidden when it starts with `.` or contains `/.` (definition; used by `PathFilter.HiddenNeverPasses`) |
| `PathFilter.Matches` | hf_download.py:54-58 | the two-case pattern rule, also used for exclude patterns at lines 68-72 (definition; meaning proved by `PathFilter.MatchesByRule`) |
| `PathFilter.AnyMatch` | hf_download.py:52-60 | some pattern of the list matches the path (definition; the loop is proved equal to it by `PathFilter.AnyPatternMatches`) |
| `PathFilter.IsActive` | hf_download.py:51 | Python truthiness of the optional list at lines 51 and 65: a list takes part only when given and not empty (definition; see `PathFilter.AbsentEqualsEmpty`) |
| `PathFilter.PassesFilter` | hf_download.py:47-76 | a path survives when it is not hidden, passes an active include list and is not matched by an active exclude list (definition; see the filter lemmas) |
| `Reconcile.NeedsDownload` | hf_download.py:89-109 | a checked file needs fetching when its local path does not exist or its verify-only lookup raises (definition; see `Reconcile.PlanMembership`) |
| `Strings.ContainsIffOccurs` | hf_download.py:58 | the substring test used by patterns and by the hidden-path rule holds exactly when the pattern occurs at some position of the path |
| `PathFilter.MatchesByRule` | hf_download.py:54-58 | a pattern that starts with `*` matches exactly the paths ending in the rest of the pattern; any other pattern matches exactly where it occurs in the path |
| `PathFilter.LoneStarMatchesEverything` | hf_download.py:54-55 | the pattern `*` matches every path, and so does the empty pattern |
| `PathFilter.InnerStarIsLiteral` | hf_download.py:54-58 | a `*` that is not the first character is an ordinary character: any path such a pattern matches contains a `*` |
| `PathFilter.AnyPatternMatches` | hf_download.py:52-60 | the flag-and-break loop over a pattern list returns true exactly when some pattern of the list matches the path |
| `PathFilter.HiddenNeverPasses` | hf_download.py:47-48 | a path that starts with `.` or contains `/.` is rejected whatever the include and exclude lists are |
| `PathFilter.IncludeIsAnyMatchGate` | hf_download.py:51-62 | with an active include list a visible path passes (before the exclude stage) exactly when some include pattern matches it; an absent or empty list lets every visible path pass |
| `PathFilter.ExcludeVetoes` | hf_download.py:65-76 | a path matched by an active exclude list is rejected even when an include pattern matched it; an absent or empty exclude list changes nothing |
| `PathFilter.AbsentEqualsEmpty` | hf_download.py:51-76 | an absent pattern list and an empty one filter alike, for both lists |
| `PathFilter.PatternOrderIrrelevant` | hf_download.py:53-60 | two pattern lists with the same members give the same verdict: the `break` only saves work |
| `PathFilter.Filter` | hf_download.py:44-78 | the filtered listing is never longer than the listing |
| `PathFilter.FilterFiles` | hf_download.py:44-78 | the loop builds exactly the filtered listing `Filter(all_files, include, exclude)` |
| `PathFilter.FilterMembership` | hf_download.py:45-78 | a path is in the filtered listing exactly when it was listed and passes the filter |
| `PathFilter.FilterAppend` | hf_download.py:45-78 | filtering a concatenation filters each part in turn, so the listing order is kept |
| `PathFilter.FilterKeepsDuplicates` | hf_download.py:45-78 | a path that passes appears in the filtered listing as many times as it was listed; one that fails does not appear |
| `PathFilter.FilterHasNoHidden` | hf_download.py:47-48 | no element of the filtered listing is hidden |
| `Reconcile.LocalPath` | hf_download.py:85 | the local path of a file ends with its remote path and, for a relative remote path, starts with the local directory |
| `Reconcile.Plan` | hf_download.py:83-109 | the plan is never longer than the list of checked files |
| `Reconcile.BuildPlan` | hf_download.py:83-109 | the loop builds exactly the plan `Plan(files_to_check, local_dir, pathExists, verifies)` (that the body consults `verifies` only for files that exist is the body's order of calls, not part of the contract) |
| `Reconcile.PlanMembership` | hf_download.py:84-109 | a pair is planned exactly when its path was checked, its local side is the local directory joined with the path, and the local file is missing or fails verification |
| `Reconcile.PlanEmptyIffAllValid` | hf_download.py:88-109 | the plan is empty exactly when every checked file exists locally and verifies |
| `Reconcile.PlanAppend` | hf_download.py:84-109 | planning a concatenation plans each part in turn, so the plan keeps the order of the checked files |
| `Reconcile.PlanKeepsDuplicates` | hf_download.py:84-109 | a checked path that needs fetching is planned once per occurrence; duplicates are not merged |
| `Fetch.FetchAll` | hf_download.py:116-133 | there is one outcome per planned item, in plan order, for that item's remote path, and it is exactly what that item's own download call returned |
| `Fetch.DownloadAll` | hf_download.py:116-133 | the download loop attempts every planned item once, in order, and records every success and every caught failure (`FetchAll`) |
| `Fetch.FailureIsIsolated` | hf_download.py:117-133 | the outcome for one item depends only on that item's download call, so a failure elsewhere cannot change it |
| `Session.CheckAndDownloadMissingFiles` | hf_download.py:24-138 | a failed listing ends the run with its message and nothing else happens; otherwise the run reports the listed count, the filtered listing, its plan and the fetch outcomes of that plan, with no download when the plan is empty |
| `Session.FetchesExactlyTheInvalid` | hf_download.py:83-135 | a download is attempted for a checked file (it gets an outcome, which may be a failure) exactly when the file is missing locally or fails verification |
| `Session.RerunAfterFullSuccessPlansNothing` | hf_download.py:83-129 | if every download of a run succeeds, a valid file stays valid and a successful download leaves a valid file, then a second run plans nothing |
| `Session.SafetensorsExample` | hf_download.py:47-76 | `dir/name.safetensors` (for instance `models/a.safetensors`) passes with include `*.safetensors`, and is dropped when `dir/` is also excluded |
| `Session.LockFileExample` | hf_download.py:47-48 | `cache/.lock` is rejected whatever the pattern lists are |
| `Session.DuplicateListingIsFetchedTwice` | hf_download.py:44-109 | a listing `a, b, a` in which `a` passes and needs fetching and `b` is filtered out plans `a` twice |

## Left out

- `get_file_hash` (hf_download.py:9-22) is not modelled. It hashes a file with SHA-256 through file I/O, and the session never calls it.
- `main` (hf_download.py:141-175) is not modelled. It parses the command line, runs an authentication probe whose failure only prints a warning, and passes its arguments on.
- The repository service calls (`list_repo_files`, `hf_hub_download`) are parameters. Their own behaviour is not modelled. This includes anything the verify-only lookup writes into the local directory.
- Each oracle is a fixed function for the whole run. The model does not capture a download changing what a later call in the same run sees. `Session.RerunAfterFullSuccessPlansNothing` states that effect as a precondition between two runs.
- Directory creation is not modelled. The creation of the local directory (hf_download.py:36) sits outside the `try` and is left out. The creation of each item's parent directory (hf_download.py:119) sits inside the per-item `try`, so its failure is folded into `fetch` returning a failure.
- `Fetch.DownloadAll`: per-item isolation assumes the per-item prints do not raise. The success print (hf_download.py:131) is inside the `try`, and the failure print (hf_download.py:133) is inside the `except`. If the output stream cannot encode their characters, line 131 turns a successful download into a reported failure, and line 133's exception escapes to the outer handler (hf_download.py:137-138), which skips every later item. `Fetch.FetchAll` and `Fetch.FailureIsIsolated` do not model this.
- The outer handler catches any exception raised in the body (hf_download.py:137-138). The model only covers the listing failure. An unexpected exception while checking files, such as `Path.exists` raising, is not modelled.
- Printing and progress bars (`print`, `tqdm`) are not modelled. The report records what the printed lines say, not their text.
- `Reconcile.LocalPath` models the join `Path(local_dir) / path` for these cases: an absolute path, an empty directory and a directory ending in `/`. It does not model the rest of pathlib's normalisation: `.` segments, doubled separators, and an empty remote path.
- `finetune/train.py` is not part of this model. It only dispatches into trainer classes that are defined elsewhere.
