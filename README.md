# Trial orchestration of the SWE-bench harness, modelled in Dafny

The harness runs a code-editing agent on SWE-bench instances. For each instance,
`process_one_instance` runs attempts `1..num_tries` in an outer loop and every model
of the list in an inner loop. Each trial provisions a fresh checkout of the
repository from a local cache of bare clones and runs the agent. A session that
raises is skipped. A completed one is recorded with its cost, patch, lint and test
outcomes, and the gold and edited file lists (`files_in_patch`).

The first trial whose patch is non-empty and whose lint outcome is true wins, and
both loops stop there. Without such a trial, `pick_winner` chooses among the
recorded results. A winner is appended, with `tries`, the full history and the
total cost, to a JSON array file. `process_instances` runs the instances one after
the other on its sequential path. It takes either the one given id or every key of
the dataset, and an exception ends its loop.

The model has seven modules:

- `Base`: an option type, the first index of an element, and "no repeats".
- `Text`: Python's `str.split` with a one-character separator, read left to right, and its inverse `Join`.
- `PatchFiles`: `files_in_patch`, as a method with a loop, proved against a specification function.
- `RepoCache`: the cache entry's name derived from the GitHub URL, and the class `BareRepoCache` whose `Checkout` issues a bare clone only for a missing entry.
- `Trials`: the specification of the retry loops. It covers the order of the (attempt, model) pairs, one trial as a step over the loop state, and the state after any prefix of trials. It also has a nested form that follows the two loops, `InstanceSpec` for the final outcome, and the lemmas about all of these.
- `ResultStore`: the class `PredictionFile`, the predictions file read whole, extended by one entry and written back.
- `Harness`: `process_one_instance` as methods with the source's loops, proved equal to `InstanceSpec`, plus the sequential instance loop of `process_instances`, proved against a fold over the ids.

The agent is a parameter: a function from (attempt, model index) to the outcome of one
session. `pick_winner` is an arbitrary function from the results to an optional
choice. Costs are natural numbers.

## Model

| member | source | states |
|---|---|---|
| `PatchFiles.IsHeader` | swebenchmark/harness.py:42 | A header line is one starting with `--- a/` or `+++ b/`. |
| `PatchFiles.AfterFirstSlash` | swebenchmark/harness.py:43 | `line.split("/", 1)[1]`: the text after the first slash of a line that has one. |
| `PatchFiles.HeaderNames` | swebenchmark/harness.py:41-43 | The names of the patch's header lines, in line order, with repeats kept. |
| `PatchFiles.Dedup` | swebenchmark/harness.py:44-45 | The "append unless already listed" step over a list: the first occurrence of every element, in order. |
| `PatchFiles.PatchFileList` | swebenchmark/harness.py:36-46 | The specification of `files_in_patch`: the header names of the patch's lines, in order, with repeats dropped. The list has no repeats. |
| `PatchFiles.FilesInPatch` | swebenchmark/harness.py:36-46 | The loop returns exactly `PatchFileList(patch)`: the header names of the patch lines, de-duplicated. The list has no repeats. |
| `PatchFiles.HeaderName` | swebenchmark/harness.py:42-43 | On a line starting with `--- a/` or `+++ b/`, the text after the first slash is the text after the six-character prefix. |
| `PatchFiles.PatchFileListMembers` | swebenchmark/harness.py:41-45 | A name is listed exactly when some header line of the patch names it. |
| `PatchFiles.PatchFileListOrder` | swebenchmark/harness.py:41-45 | The list has no repeats. Every name comes from a header line. Names appear in the order of their first header. |
| `PatchFiles.HeaderNamesMembers` | swebenchmark/harness.py:41-43 | A name occurs among the header names exactly when a header line carries it after its prefix. |
| `PatchFiles.DedupMembers` | swebenchmark/harness.py:44-45 | The "append unless already listed" step keeps every element and adds none. |
| `PatchFiles.DedupNoDuplicates` | swebenchmark/harness.py:44-45 | The de-duplicated list has no repeats. |
| `PatchFiles.DedupOrder` | swebenchmark/harness.py:44-45 | Every kept element comes from the input. Kept elements are ordered by their first occurrence. |
| `PatchFiles.NoHeadersNoFiles` | swebenchmark/harness.py:40-46 | A patch without header lines names no files. |
| `PatchFiles.SameFileTwice` | swebenchmark/harness.py:40-46 | A diff whose old and new headers name one file, twice over, lists that file once. |
| `Text.Split` | swebenchmark/harness.py:41 | `str.split` with a one-character separator. There is always at least one piece, and an empty string gives one empty piece. |
| `Text.SplitSeparatorFree` | swebenchmark/harness.py:41 | No piece of `s.split(sep)` contains the separator. |
| `Text.JoinSplit` | swebenchmark/harness.py:41 | Joining the pieces with the separator gives back the string. |
| `Text.SplitJoin` | swebenchmark/harness.py:41 | Splitting separator-free pieces after joining them gives back the pieces. |
| `Text.SplitNoSep` | swebenchmark/harness.py:70 | A string without the separator splits into itself alone. |
| `Text.FirstPiece` | swebenchmark/harness.py:70 | `split(".")[0]` is the text before the first dot, or the whole string when there is none. |
| `Text.LastPiece` | swebenchmark/harness.py:70 | `split("/")[-1]` is the text after the last slash, or the whole string when there is none. |
| `RepoCache.GithubUrl` | swebenchmark/harness.py:54-55 | The repository URL is `https://github.com/` followed by the entry's `repo`. |
| `RepoCache.LastSegment` | swebenchmark/harness.py:70 | `url.split("/")[-1]`: the URL's characters after its last `/`, or all of it when there is none. |
| `RepoCache.Stem` | swebenchmark/harness.py:70 | `segment.split(".")[0]`: the segment's characters before its first `.`, or all of it when there is none. |
| `RepoCache.RepoName` | swebenchmark/harness.py:70-71 | The cache entry's name is the stem of the URL's last segment followed by `.git`, so it always ends in `.git`. |
| `RepoCache.LastSegmentTail` | swebenchmark/harness.py:70 | The last URL segment is the slash-free tail that starts after the last `/`. |
| `RepoCache.StemHead` | swebenchmark/harness.py:70 | The stem is the dot-free head of the segment, ending at its first `.`. |
| `RepoCache.RepoNameIsSplit` | swebenchmark/harness.py:70-71 | The cache name equals `url.split("/")[-1].split(".")[0] + ".git"`, computed with `Split`. |
| `RepoCache.RepoNameShape` | swebenchmark/harness.py:70-71 | The cache name is a slash-free, dot-free stem followed by `.git`. |
| `RepoCache.RepoNameIs` | swebenchmark/harness.py:70-71 | For the start of the last segment and the end of its dot-free head, the name is that text plus `.git`. |
| `RepoCache.GithubRepoName` | swebenchmark/harness.py:54-71 | For the entry `owner/name` with a dot-free name, the cache entry is `name.git`. |
| `RepoCache.OwnerIgnored` | swebenchmark/harness.py:54-75 | Two repositories with different owners and the same name have different URLs but the same cache entry. |
| `RepoCache.BareRepoCache.Valid` | swebenchmark/harness.py:74-79 | Every bare clone this run issued is present in the `repos/` directory, and no entry was cloned twice. |
| `RepoCache.BareRepoCache.Provisioned` | swebenchmark/harness.py:70-79 | Since a given earlier state, the entry `name` has been made present. It was cloned once, exactly when it was missing then, and nothing else changed. |
| `RepoCache.BareRepoCache.ProvisionedIf` | swebenchmark/harness.py:70-79 | `Provisioned` when the flag holds (some checkout ran). Otherwise the entries and the issued clones are unchanged. |
| `RepoCache.BareRepoCache.Checkout` | swebenchmark/harness.py:70-79 | Returns the derived name. A bare clone is issued exactly when the entry was missing. The entry is then present. No clone is ever issued twice, and every issued clone is present. |
| `Trials.Row` | swebenchmark/harness.py:225 | The trials of one attempt's inner loop: the attempt paired with each of the first `n` models, in list order. |
| `Trials.Schedule` | swebenchmark/harness.py:224-225 | The trials in loop order: for each attempt `1..num_tries`, every model of the list, by position. |
| `Trials.Plausible` | swebenchmark/harness.py:325 | A trial is plausible when it completed with a non-empty patch and a true lint outcome. The test outcome plays no part. |
| `Trials.ResultOf` | swebenchmark/harness.py:304-320 | The result recorded for a completed trial: its patch, model, cost, added files, the gold and edited file lists, lint and test outcomes, `try` and the entry. |
| `Trials.Step` | swebenchmark/harness.py:268-329 | One trial: nothing runs after a winner, a raised session is skipped, a completed one is recorded and wins when plausible. |
| `Trials.Run` | swebenchmark/harness.py:224-329 | The loop state after the given trials, one `Step` each, in order. |
| `Trials.RowRun` | swebenchmark/harness.py:225-329 | The state after the inner loop of one attempt has run its first `n` models, with the `break` after a winner. |
| `Trials.Attempts` | swebenchmark/harness.py:224-331 | The state after the outer loop has run attempts `1..a`, each by its inner loop, with the second `break` after a winner. |
| `Trials.CompletedResults` | swebenchmark/harness.py:268-320 | The `results` list of the given trials: one result per completed session, in order. A session that raised adds none. |
| `Trials.TotalCost` | swebenchmark/harness.py:296 | The cost is the sum of the recorded results' costs. |
| `Trials.Executed` | swebenchmark/harness.py:224-331 | The trials that run: all of them up to and including the first plausible one. |
| `Trials.RowShape` | swebenchmark/harness.py:225 | The inner loop of an attempt pairs it with each model of the list, by position. |
| `Trials.ScheduleShape` | swebenchmark/harness.py:224-225 | The trials are exactly the pairs of an attempt in `1..num_tries` and a listed model, in strictly increasing loop order. |
| `Trials.SchedulePrefix` | swebenchmark/harness.py:224-225 | Fewer attempts give a prefix of the trial order. |
| `Trials.RowRunIsRun` | swebenchmark/harness.py:225-329 | Running part of an attempt's inner loop continues the run of all earlier trials. |
| `Trials.AttemptsIsRun` | swebenchmark/harness.py:224-331 | The nested loops reach the same results and winner as running the trials in order. |
| `Trials.RowRunAfterWinner` | swebenchmark/harness.py:326-329 | Once a model wins, the remaining models of that attempt change nothing (`break`). |
| `Trials.AttemptsAfterWinner` | swebenchmark/harness.py:330-331 | Once an attempt has a winner, later attempts change nothing (the second `break`). |
| `Trials.FirstPlausible` | swebenchmark/harness.py:326 | The position returned is plausible and none before it is. Without a result, no trial is plausible. |
| `Trials.FirstPlausibleIs` | swebenchmark/harness.py:326 | A plausible trial with no plausible trial before it is the first plausible one. |
| `Trials.ExtendAfterPlausible` | swebenchmark/harness.py:326-331 | A trial added after the first plausible one changes neither it nor the trials that run. |
| `Trials.ExtendNoPlausible` | swebenchmark/harness.py:326-331 | If no earlier trial is plausible, an added trial runs, and it is the first plausible exactly when it is plausible. |
| `Trials.RunStopsAtFirstPlausible` | swebenchmark/harness.py:224-331 | The results are those of the completed trials up to the first plausible one. The winner is that trial's result. Without a plausible trial, every trial runs and there is no winner. |
| `Trials.RunAfterWinner` | swebenchmark/harness.py:326-331 | Trials scheduled after a winner change nothing. |
| `Trials.CompletedResultsTries` | swebenchmark/harness.py:309-321 | Results of trials taken in nondecreasing attempt order carry nondecreasing `try` values, within the same bounds. |
| `Trials.ExecutedConcat` | swebenchmark/harness.py:224-331 | When no earlier trial is plausible, later trials run after all of them, up to their own first plausible one. The combined list has a plausible trial exactly when the later part has. |
| `Trials.ExecutedAfterPlausible` | swebenchmark/harness.py:326-331 | Trials appended after a plausible one never run. |
| `Trials.RowRunWinner` | swebenchmark/harness.py:225-329 | From a state with no winner, the inner loop has a winner exactly when the models it ran include a plausible trial. |
| `Trials.RowExecutedStep` | swebenchmark/harness.py:225-329 | Before a winner, every model run so far ran, and the next model runs after them. |
| `Trials.RowExecutedAfterWinner` | swebenchmark/harness.py:326-327 | Once a model of the attempt wins, the remaining models do not run. |
| `Trials.ScheduleExecutedStep` | swebenchmark/harness.py:224-331 | With no plausible trial in the earlier attempts, all of them ran, and the next attempt runs its models up to its first plausible one after them. |
| `Trials.AttemptsNoWinner` | swebenchmark/harness.py:224-331 | Attempts that end without a winner contain no plausible trial. |
| `Trials.AttemptExecuted` | swebenchmark/harness.py:224-331 | An attempt begun with no winner runs after every earlier trial that ran, its models up to the first plausible one. |
| `Trials.AttemptsExecutedAfterWinner` | swebenchmark/harness.py:330-331 | Once an attempt has a winner, no later attempt runs a trial. |
| `Trials.LoopsDone` | swebenchmark/harness.py:224-331 | When the outer loop stops, by running out of attempts or by a winner, its state and the trials it ran are those of the whole schedule. |
| `Trials.ExecutedEmpty` | swebenchmark/harness.py:224-225 | No trial runs exactly when `num_tries` is 0 or the model list is empty. |
| `Trials.WinnerIffPlausible` | swebenchmark/harness.py:325-331 | The run has a winner exactly when some trial is plausible. |
| `Trials.InstanceSpec` | swebenchmark/harness.py:224-360 | How one instance ends: the winner of the run, or else `pick_winner`'s choice, written with its `tries`. It ends with nothing written, or with `attempt` unbound, which happens only when `num_tries` is 0. |
| `Trials.EarlyExit` | swebenchmark/harness.py:224-360 | With a first plausible trial at position `j`, that result is written with `tries` equal to its attempt. The history is the completed trials up to it, and the cost is the history's total. `pick_winner` is not consulted. |
| `Trials.Fallback` | swebenchmark/harness.py:333-360 | Without a plausible trial, every trial runs. Nothing is written if `pick_winner` chooses nothing. Otherwise its choice is written with `tries = num_tries`, the whole history and its total cost. With zero tries the run raises instead. |
| `Trials.HistoryOrdered` | swebenchmark/harness.py:309-358 | A written history carries `try` values in `1..num_tries`, nondecreasing. |
| `Trials.ExecutedTries` | swebenchmark/harness.py:309-322 | The trials that run record `try` values in `1..num_tries`, nondecreasing. |
| `Trials.TestOutcomeIgnored` | swebenchmark/harness.py:325-326 | Two agents that differ only in test outcomes stop at the same trial and run the same trials. |
| `Trials.SecondModelWinsFirstAttempt` | swebenchmark/harness.py:224-360 | Two models, where the first never passes lint and the second passes on attempt 1. For any number of tries, the second model wins with `tries = 1`, after two trials whose costs add up to the total. |
| `Trials.TwoCompleted` | swebenchmark/harness.py:296-322 | Two completed trials give a history of their two results, in order, costing their sum. |
| `Harness.AttemptsDone` | swebenchmark/harness.py:219-357 | After the loops, `results` and `winner` are those of the whole schedule and `cost` is their total. `attempt`, read at line 357, is the winner's try, or `num_tries`, and is unbound when the range was empty. |
| `Harness.ProcessOneInstance` | swebenchmark/harness.py:186-378 | The outcome is `InstanceSpec` for the entry. The file gains exactly the written prediction. The trials that ran are exactly the schedule up to its first plausible trial. The repository's cache entry is provisioned exactly when some trial ran, with one bare clone when it was missing. |
| `Harness.RunAttempts` | swebenchmark/harness.py:204-331 | With the gold files of the entry's patch, the outer loop leaves the results and winner of the whole schedule and their total cost. `attempt` is bound to the winner's try, or to `num_tries`, and is unbound when no attempt ran. The trials run are the schedule up to its first plausible trial. The cache entry is provisioned exactly when some trial ran. |
| `Harness.RunAttempt` | swebenchmark/harness.py:224-331 | One attempt extends the state of the earlier attempts by its inner loop. The trials it runs are its models up to the first plausible one, after all the earlier trials. Any winner carries this attempt. The cache entry is provisioned when there is a model, and is unchanged otherwise. |
| `Harness.RunModels` | swebenchmark/harness.py:225-329 | The inner loop runs the attempt's models in order until one is plausible. It leaves the state of the whole row, and runs exactly the models up to the first plausible one. The cache entry is provisioned when there is a model. |
| `Harness.RunModel` | swebenchmark/harness.py:228-329 | Provisioning and one trial advance the inner loop by one model, record that model's trial as run, and provision the cache entry. |
| `Harness.RunTrial` | swebenchmark/harness.py:268-329 | One trial is one step of the specification. The cost grows by the session's cost exactly when it completed. A winner carries the trial's attempt. |
| `Harness.Conclude` | swebenchmark/harness.py:333-378 | The fallback, the unbound-`attempt` exception and the append produce `InstanceSpec`. The file changes only by appending the written prediction. |
| `Harness.NeverUnbound` | swebenchmark/harness.py:224-357 | With at least one try, no instance ends with `attempt` unbound. |
| `Harness.ProcessInstances` | swebenchmark/harness.py:397-426 | The ids processed, the exception that ended the loop and the final file all agree with the fold over the remaining ids. The cache only grows. |
| `Harness.Remaining` | swebenchmark/harness.py:398-402 | A given non-empty id is the only remaining one. Otherwise every key of the dataset remains, since an empty id is false in `if instance_id:`. |
| `Harness.DispatchStep` | swebenchmark/harness.py:411-426 | One iteration of the instance loop: after an exception nothing happens, a done id is skipped, a missing id raises `KeyError`, and otherwise the instance is processed and any winner written. |
| `Harness.DispatchRun` | swebenchmark/harness.py:411-426 | The instance loop over a list of ids, one `DispatchStep` each, in order. |
| `Harness.WellFormed` | swebenchmark/harness.py:402 | The dataset's key list has no repeats and lists exactly the ids that have an entry, as the keys of a Python dict do. |
| `Harness.Statuses` | swebenchmark/harness.py:416-426 | How each instance of the dataset ends: `process_one_instance` on its entry with `models=[model]` and `model_name_or_path=model`. |
| `Harness.Keep` | swebenchmark/harness.py:411-414 | The ids that are not done, in order: those that the `continue` does not skip. |
| `Harness.ProcessId` | swebenchmark/harness.py:411-426 | One iteration skips a done id, raises `KeyError` for an id missing from the dataset, or runs `process_one_instance` with the single model. |
| `Harness.DispatchStuck` | swebenchmark/harness.py:411-426 | After an exception, the remaining ids change nothing. |
| `Harness.KeepMembers` | swebenchmark/harness.py:411-414 | An id is kept exactly when it is listed and not done. |
| `Harness.KeepAll` | swebenchmark/harness.py:397-414 | With no id done (the source's empty `done_instances`), every id is kept. |
| `Harness.KeepNoDuplicates` | swebenchmark/harness.py:411-414 | Skipping done ids keeps a repeat-free list repeat-free. |
| `Harness.WrittenBy` | swebenchmark/harness.py:375-378 | The predictions appended for the given processed ids, in order: one for each instance that ends with a winner, none for the others. |
| `Harness.DispatchProcessed` | swebenchmark/harness.py:411-426 | The processed ids are a prefix of the ids not done. All of them are processed when nothing raised. |
| `Harness.DispatchWritten` | swebenchmark/harness.py:411-426 | Every processed id has an entry. The appended predictions are exactly those of the processed instances with a winner, in order. |
| `Harness.FileAfterRun` | swebenchmark/harness.py:411-426 | The file ends with its old contents followed by the winners of the processed instances, in order. |
| `Harness.DispatchNoFailure` | swebenchmark/harness.py:411-426 | When every id not done has an entry, and no instance ends with `attempt` unbound, the loop raises nothing. |
| `Harness.GivenInstance` | swebenchmark/harness.py:398-426 | A given id is the only one processed. A missing id raises `KeyError` before anything is processed. |
| `Harness.AllInstances` | swebenchmark/harness.py:397-426 | Without a given id, on a dataset whose keys are its entries, with at least one try: every key not done is processed once, in key order, and nothing raises. With no id done, that is every key. |
| `Harness.DoneSkipped` | swebenchmark/harness.py:411-414 | An id already done is never processed. |
| `ResultStore.Loaded` | swebenchmark/harness.py:369-373 | The array read back: the file's predictions, or empty when the file is missing. |
| `ResultStore.Appended` | swebenchmark/harness.py:368-378 | After an append the file exists. It holds its old array, unchanged, followed by the new prediction. |
| `ResultStore.AppendedAll` | swebenchmark/harness.py:368-378 | The file after one append per prediction, in order. With nothing to append it is untouched. |
| `ResultStore.AppendedAllLoaded` | swebenchmark/harness.py:368-378 | Successive appends read back as the old array followed by everything appended, in order. |
| `ResultStore.PredictionFile.Append` | swebenchmark/harness.py:368-378 | Reading the array (empty when the file is missing), appending and writing back gives `Appended` of the old file. |

## Left out

- The git commands, `subprocess` failures, the temporary directories and `chdir` are not modelled. A checkout is one call on `BareRepoCache` that issues a bare clone when the entry is missing. A failing git command, or an exception from `get_coder` (called outside the `try`, lines 238-249), would raise out of `process_one_instance`; that is not modelled.
- The agent session (`coder.run`, the lint and test machinery, `diff_versus_commit`) is a parameter: one outcome per (attempt, model index). Its `Raised` outcome stands only for `coder.run` raising inside the `try` (lines 268-274).
- The follow-up prompt when no files were added is not modelled separately (lines 280-289). Its cost is part of the session's outcome. An exception it raises would escape `process_one_instance` uncaught, and this is not modelled.
- `pick_winner`'s own rule lives in `swebenchmark/utils.py`, which is not part of this model. It is an arbitrary function of the results. The model takes `pick_winner` to return without raising and without changing `results`. A raise at line 335 would escape `process_one_instance` and end the instance loop. An in-place change to the list would change the `all_results` written at line 358. Neither is modelled.
- `temperature` and the float cost are not modelled. Costs are natural numbers, so floating-point rounding of the total is not captured.
- The printing and dumping, the chat-history cleanup, and the prompt text are not modelled.
- The fallback `out_pred_file` path built from `out_dname` when none is given (lines 364-365) is not modelled: `process_instances` always passes one file.
- JSON encoding and decoding are not modelled: the file holds the predictions themselves.
- The `threads > 1` path (`lox` scatter and gather) is not modelled, because it is concurrent.
- `export_to_gcs`, `main` and the command line in `swebenchmark/main.py`, and the `codesearch` coder files are not modelled.
- A negative `num_tries` (the command line's integer option) is not modelled: `num_tries` is a `nat`. Python's `range(1, num_tries + 1)` is empty for it, so it behaves like 0: no trial runs and `attempt` is unbound at line 357.
- `Harness.ProcessInstances`: the cache postcondition states only that the set of entries and the list of issued clones grow. The exact per-instance effect is stated by `Harness.ProcessOneInstance`.

## Quirks of the code that the model keeps

- The cache is keyed by the last URL segment up to its first dot, so the owner plays no part (line 70). Repositories with the same name under different owners share one bare clone (`RepoCache.OwnerIgnored`).
- Without a winner, a placeholder result is built and then discarded: nothing is written for the instance (lines 337-346).
- A session that raises leaves no result in the history (line 274).
- The written `cost` is the instance's total over all trials, which overwrites the winner's own cost (line 359). In the model it is `Prediction.cost`, while `Prediction.winner.cost` keeps that trial's cost. `tries` and `all_results` are written beside the winner's fields, as `Prediction.tries` and `Prediction.allResults`.
- `tries` is the attempt number of the winner (line 357), not the number of trials run. For two models where the second wins on attempt 1, `tries` is 1 and the history holds two results.
- With `num_tries == 0` and `pick_winner` choosing a result, `attempt` is unbound at line 357, and the instance raises instead of writing.
- An id missing from the dataset raises `KeyError` at line 417, which ends the instance loop.
- `done_instances` is always empty in the source (line 397). The model takes it as a parameter, and `Harness.AllInstances` covers the empty case.
- The predictions file is read and rewritten whole on every append (lines 368-378). The model treats that read and write as one step.
