# Xray status sync and epic test summaries, modelled in Dafny

Three Python scripts glue Xray (test management in Jira), Jira and Nextworld (the test runner)
together:

- `updateJiraEpicsFromXray.py` does two things.
  - For every configured Xray test execution, it pages through the tests 100 at a time. It reads
    the test runs of each page and asks Nextworld for the latest result of each run's suite.
    Runs are matched to suites by *Test Suite Name*. The script then writes the translated
    statuses back in one GraphQL mutation.
  - It then aggregates the run statuses of every epic of the release into five counters and a
    releasable percentage. It writes four of the counters (total, passed, executed and remaining
    tests) and the percentage to the epic; the failed-releasable count only feeds the percentage.
- `UpdateXrayTestsWithLatestStatus.py` does the same status sync with a few differences:
  - runs are matched by *Test Suite Link*, not by name;
  - a failed runs or results request retries the page instead of exiting;
  - writes go out in batches of 25;
  - the Nextworld token is refreshed after a page that is not the last one, when that page's
    `loopCount` is a positive multiple of 5: first after the sixth page, then after every fifth
    page more;
  - the Nextworld authentication server depends on an optional release-pipeline id.
- `UpdateEpicTestSummaries.py` is the epic aggregation alone.

The model keeps the deterministic core of these loops and treats every network response as an
input.

- **Responses as inputs.** Each page or attempt is a record of the answers it receives, given as
  a `Fetch` value (`Fetched(v)` or `FetchFailed`). A run of the script is a sequence of them.
- **Errors.**
  - `exit()` becomes `Err(Aborted)`.
  - The `KeyError` of the merge becomes `Err(SuiteMissing(suite))`.
  - Running out of supplied responses becomes `Err(ResponsesExhausted)`.
- **Dicts.** A Python dict is an insertion-ordered sequence of pairs (`Dicts.Dict`). `Put` is
  `d[k] = v`: an existing key keeps its place. `Get` is `d.get(k)`.
- **Loops as methods.** Every loop the model keeps is a `method` with its loop. Each method is
  proved equal to a specification function. The behaviour the scripts promise is proved about
  those functions as lemmas.

Modules:

- `Wrappers`: `Option`, `Result`, `Fetch`, and the failure kinds.
- `Dicts`: dicts, and the folds "index by key" and "collect the kept elements".
- `Decimal`: `str(n)` and its inverse.
- `Statuses`: the status table.
- `Reconcile`: the run filter, the result translation, the merge and the two "not found" reports.
- `Batching`: `chunk_dict` and the aliased mutation text.
- `Paging`: the offset arithmetic and the refresh schedule.
- `NameSync`: the name-based sync loop.
- `LinkSync`: the link-based sync loop with retries, batches and refreshes.
- `Epics`: the epic aggregation.
- `Auth`: the authentication server URL.

Behaviour of the scripts that is easy to misread, and that the model keeps:

- A run whose suite's result carries no recognised status is still written, with status text
  `None` (`StatusText`). It is not left out of the write.
- A run whose suite (or link) has no entry in the Nextworld answer makes the merge raise
  `KeyError`, which ends the script (`Merged`). It is not a "not found" report.
- Only a result whose `TestResultStatus` is absent or null is reported as "not found". An
  unrecognised status string translates to `None` silently (`StatusesPresentReportNothing`).
- `UpdateXrayTestsWithLatestStatus.py` retries a page after a failed runs or results request.
  The other scripts exit on a failed read request. `updateJiraEpicsFromXray.py` also exits when
  its Xray status write fails (`NamePageStepFails`). A failed batch write in
  `UpdateXrayTestsWithLatestStatus.py` and a failed epic update in either epic loop are only
  logged, and the loop goes on.
- In `UpdateXrayTestsWithLatestStatus.py`, a page whose results request fails has already added
  its runs to `testsFound`. So a page retried for that reason counts its runs more than once
  (`LinkAttemptRetries`).

## Model

Source paths are relative to the repository root. Where the same logic is copied into another
script, the row cites one copy; the other copies are:

- status table: `UpdateXrayTestsWithLatestStatus.py:154-173`;
- merge of run ids and suite statuses: `UpdateXrayTestsWithLatestStatus.py:182-184`;
- mutation text of one batch: `UpdateXrayTestsWithLatestStatus.py:196-207`;
- bucketing: `UpdateEpicTestSummaries.py:114-130`;
- epic page loop: lines 234-297 of `updateJiraEpicsFromXray.py`.

| member | source | states |
|---|---|---|
| Statuses.XrayStatus | JiraUpdateFromXrayScript/updateJiraEpicsFromXray.py:146-161 | each of the seven Nextworld statuses gets its Xray status from the table (Initialized to TO DO, ..., Failed to Run to FAILED); an absent or unknown status gives None; every result is one of the six Xray targets |
| Statuses.NeverBlockRelease | JiraUpdateFromXrayScript/updateJiraEpicsFromXray.py:146-161 | no Nextworld status ever translates to BLOCK-RELEASE |
| Dicts.Put | JiraUpdateFromXrayScript/updateJiraEpicsFromXray.py:121 | assigning a new key appends the pair; assigning an existing key keeps the key order and replaces only that key's value |
| Dicts.GetPut | JiraUpdateFromXrayScript/updateJiraEpicsFromXray.py:165 | after `d[k] = v`, `k` reads back `v` and every other key reads back what it held before |
| Dicts.PutKeys | JiraUpdateFromXrayScript/updateJiraEpicsFromXray.py:121 | assignment adds exactly `k` to the key set and keeps the keys distinct |
| Dicts.Get | JiraUpdateFromXrayScript/updateJiraEpicsFromXray.py:175 | a lookup succeeds exactly when the key is present, and returns a value stored with that key |
| Reconcile.CollectRuns | JiraUpdateFromXrayScript/updateJiraEpicsFromXray.py:118-123 | the run loop builds `testRunIds` and `testSuiteNames` from the runs with a non-empty suite field, and `testsFound` grows by exactly the number of such runs |
| Reconcile.RunIndexMeaning | JiraUpdateFromXrayScript/updateJiraEpicsFromXray.py:118-123 | `testRunIds` holds exactly the ids of runs with a non-empty field, once each; every value is a non-empty field of a run with that id, that of the last such run when an id repeats |
| Reconcile.TranslateResults | JiraUpdateFromXrayScript/updateJiraEpicsFromXray.py:141-165 | the result loop builds `testSuiteStatuses` and the not-found additions as the fold over the results |
| Reconcile.StatusIndexMeaning | JiraUpdateFromXrayScript/UpdateXrayTestsWithLatestStatus.py:149-173 | `testSuiteStatuses` has exactly one key per distinct result key (TestSuiteName or TestResultLink), and each key holds the translation of the last result with that key |
| Reconcile.NotFoundSuitesMeaning | JiraUpdateFromXrayScript/updateJiraEpicsFromXray.py:162-163 | a suite name is added to `testSuitesNotFound` exactly when some result with that name has no status, once per such result |
| Reconcile.StatusesPresentReportNothing | JiraUpdateFromXrayScript/updateJiraEpicsFromXray.py:162-163 | results that all carry a status, recognised or not, report nothing |
| Reconcile.MergeStatuses | JiraUpdateFromXrayScript/updateJiraEpicsFromXray.py:173-176 | the merge loop computes `Merged`, stopping at the first run whose suite has no entry |
| Reconcile.MergedErrSticks | JiraUpdateFromXrayScript/updateJiraEpicsFromXray.py:175 | once some prefix of the runs has raised KeyError, the whole merge raises that same error |
| Reconcile.MergedFails | JiraUpdateFromXrayScript/updateJiraEpicsFromXray.py:173-176 | the merge raises KeyError exactly when some run's suite is not a key of `testSuiteStatuses`; the error names a missing suite, and every earlier run's suite is present |
| Reconcile.MergedContents | JiraUpdateFromXrayScript/updateJiraEpicsFromXray.py:173-176 | a successful merge has exactly the keys of `testRunIds` in the same order, and each run's value is the status stored under its suite (possibly None) |
| Reconcile.ReportBySummary | JiraUpdateFromXrayScript/updateJiraEpicsFromXray.py:94-170 | the two loops build summary-to-suite and take, in dict order, the summaries whose suite is on the not-found list |
| Reconcile.ReportBySummaryMeaning | JiraUpdateFromXrayScript/updateJiraEpicsFromXray.py:168-170 | a summary is reported exactly when some test of the page has it and the last test with that summary has a suite on the not-found list |
| Reconcile.SameIssueKeys | JiraUpdateFromXrayScript/UpdateXrayTestsWithLatestStatus.py:98-103 | the issue-to-suite and issue-to-summary dicts have the same keys in the same order, so the summary lookup of the report cannot fail |
| Reconcile.ReportByIssue | JiraUpdateFromXrayScript/UpdateXrayTestsWithLatestStatus.py:98-179 | the loops build the two issue-id dicts and take `summary - issueId` for each issue whose suite is on the not-found list |
| Reconcile.ReportByIssueMeaning | JiraUpdateFromXrayScript/UpdateXrayTestsWithLatestStatus.py:176-179 | a line is reported exactly when it is `summary - issueId` of the last test with that issue id and that test's suite name is on the not-found list |
| Decimal.NatToString | JiraUpdateFromXrayScript/updateJiraEpicsFromXray.py:183 | `str(n)` is a non-empty string of decimal digits with no leading zero |
| Decimal.DigitsValueOfNatToString | JiraUpdateFromXrayScript/updateJiraEpicsFromXray.py:183 | reading `str(n)` back as a number gives `n` |
| Decimal.NatToStringInjective | JiraUpdateFromXrayScript/updateJiraEpicsFromXray.py:183 | different numbers render differently |
| Batching.StatusText | JiraUpdateFromXrayScript/updateJiraEpicsFromXray.py:183 | the f-string writes a present status as itself and an absent one as the word None |
| Batching.StatusTextOfTranslation | JiraUpdateFromXrayScript/updateJiraEpicsFromXray.py:183 | the status text written for a result is one of the Xray statuses exactly when its Nextworld status was recognised, and the word None otherwise |
| Batching.Entries | JiraUpdateFromXrayScript/updateJiraEpicsFromXray.py:181-183 | one aliased call per pair of the dict |
| Batching.BuildMutation | JiraUpdateFromXrayScript/updateJiraEpicsFromXray.py:179-183 | `updateTestRunData` is the calls `AliasK: updateTestRunStatus(id: "...", status: "...")` for the pairs in dict order, with K running 1, 2, ..., n |
| Batching.AliasLabelsDistinct | JiraUpdateFromXrayScript/updateJiraEpicsFromXray.py:182-183 | different positions get different alias labels |
| Batching.ConcatAppend | JiraUpdateFromXrayScript/updateJiraEpicsFromXray.py:183 | appending calls to the text is concatenating their texts |
| Batching.MutationQuery | JiraUpdateFromXrayScript/updateJiraEpicsFromXray.py:189 | the request is `mutation {`, then exactly the calls, then `}`, so the calls can be read back from it |
| Batching.Chunks | JiraUpdateFromXrayScript/UpdateXrayTestsWithLatestStatus.py:187-190 | `chunk_dict(d, 25)` yields ceil(\|d\|/25) batches, and batch b holds the pairs at positions 25b up to 25(b+1) |
| Batching.ChunkDict | JiraUpdateFromXrayScript/UpdateXrayTestsWithLatestStatus.py:187-190 | the chunking loop, with its shared iterator and `range(0, len(d), 25)` counter, computes `Chunks` |
| Batching.ChunksPartition | JiraUpdateFromXrayScript/UpdateXrayTestsWithLatestStatus.py:187-193 | the batches, in order, are exactly d; each holds 1 to 25 pairs; all but the last hold 25; an empty dict gives no batch |
| Batching.ChunksDisjoint | JiraUpdateFromXrayScript/UpdateXrayTestsWithLatestStatus.py:187-193 | no run id occurs twice within a batch or in two batches |
| Batching.FlattenPrefix | JiraUpdateFromXrayScript/UpdateXrayTestsWithLatestStatus.py:188-190 | the first k batches together are the first min(25k, \|d\|) pairs |
| Paging.PagesFor | JiraUpdateFromXrayScript/updateJiraEpicsFromXray.py:197-200 | a loop over a reported total fetches at least one page, enough pages to cover the total, and no page more than it needs |
| Paging.PagesForUnique | JiraUpdateFromXrayScript/updateJiraEpicsFromXray.py:197-200 | PagesFor is the only page count that is the first at which the offset reaches the total |
| Paging.LastPage | JiraUpdateFromXrayScript/updateJiraEpicsFromXray.py:198-200 | page i is the last page exactly when the next offset 100(i+1) reaches the total |
| Paging.Offsets | JiraUpdateFromXrayScript/updateJiraEpicsFromXray.py:81 | the offsets `start:` takes over pages i to k-1 are 100i, ..., 100(k-1) |
| Paging.RefreshesAfterCount | JiraUpdateFromXrayScript/UpdateXrayTestsWithLatestStatus.py:218-221 | after m non-final pages, the token has been refreshed (m-1)/5 times (none for m = 0), once per positive multiple of 5 among `loopCount` values 0 to m-1 |
| Paging.ClimbsBack | JiraUpdateFromXrayScript/UpdateXrayTestsWithLatestStatus.py:115-118 | requesting a page and then either retrying it or moving to the next page keeps the offsets climbing one page at a time |
| Epics.Count | JiraUpdateFromXrayScript/updateJiraEpicsFromXray.py:276-292 | every run adds one to the total; a status outside the six-branch chain, or a missing one, changes nothing else; the bucket inequalities are preserved |
| Epics.CountRuns | JiraUpdateFromXrayScript/updateJiraEpicsFromXray.py:276-292 | the run loop's five counters equal `CountAll` of the page's runs |
| Epics.CountAllByStatus | JiraUpdateFromXrayScript/UpdateEpicTestSummaries.py:114-130 | each counter grows by the number of runs with its statuses: total by all runs, passed by PASSED, executed by PASSED, FAILED, FAILED-RELEASEABLE and BLOCK-RELEASE, remaining by TO DO and EXECUTING, failed-releasable by FAILED-RELEASEABLE |
| Epics.CountAllConsistent | JiraUpdateFromXrayScript/UpdateEpicTestSummaries.py:114-130 | passed + failed-releasable <= executed and executed + remaining <= total hold after any runs |
| Epics.CountAllAppend | JiraUpdateFromXrayScript/UpdateEpicTestSummaries.py:72-135 | counting page after page is counting all the runs together, so the counters accumulate across an epic's pages |
| Epics.ReleasablePercent | JiraUpdateFromXrayScript/UpdateEpicTestSummaries.py:139-140 | the percentage is 0 for an epic without runs, lies in [0, 100], is 100 when every run passed or failed releasably, and is 0 when none did |
| Epics.FourRunScenario | JiraUpdateFromXrayScript/UpdateEpicTestSummaries.py:114-140 | PASSED, FAILED, TO DO and FAILED-RELEASEABLE give counters 4, 1, 3, 1, 1 and 50 percent |
| Epics.TallyEpicPages | JiraUpdateFromXrayScript/UpdateEpicTestSummaries.py:72-135 | the page loop of one epic, from reset counters, computes `TallyEpic` |
| Epics.TallyEpicShape | JiraUpdateFromXrayScript/UpdateEpicTestSummaries.py:84-87 | pages are fetched in order up to the last; every earlier page had an execution whose total exceeded the next offset; the epic counts as found exactly when the last page had an execution; the counters are those of all runs delivered |
| Epics.TallyEpicStops | JiraUpdateFromXrayScript/UpdateEpicTestSummaries.py:84-87 | the page-structure half of `TallyEpicShape`: how many pages were fetched and what ended the loop |
| Epics.TallyEpicCounts | JiraUpdateFromXrayScript/UpdateEpicTestSummaries.py:113-130 | the counter half of `TallyEpicShape`: the final counters are those of every run the fetched pages delivered |
| Epics.TallyEpicUniform | JiraUpdateFromXrayScript/UpdateEpicTestSummaries.py:132-135 | when every page reports the same total T, the loop fetches exactly max(1, ceil(T/100)) pages, finds the epic, and counts every run of those pages |
| Epics.UpdateEpics | JiraUpdateFromXrayScript/UpdateEpicTestSummaries.py:58-152 | the epic loop computes `EpicsRun` |
| Epics.EpicsRunErrSticks | JiraUpdateFromXrayScript/UpdateEpicTestSummaries.py:79-82 | an epic whose requests fail ends the whole run with that error |
| Epics.EpicsRunMeaning | JiraUpdateFromXrayScript/UpdateEpicTestSummaries.py:138-141 | `epicsUpdated` equals the number of writes and is at most the number of epics; every write keeps the bucket inequalities and a percentage in [0, 100]; every write belongs to an epic whose last page had an execution |
| Epics.EpicsRunWrites | JiraUpdateFromXrayScript/UpdateEpicTestSummaries.py:58-152 | the run goes through exactly when every epic's page loop does; then the writes are exactly those of the found epics, one per found epic, in epic order, and `epicsUpdated` is the number of found epics |
| NameSync.SyncPage | JiraUpdateFromXrayScript/updateJiraEpicsFromXray.py:78-112 | one page of the loop computes `NamePageStep`; a failed execution or runs request exits |
| NameSync.SyncFetched | JiraUpdateFromXrayScript/updateJiraEpicsFromXray.py:114-195 | the rest of the page (filter, results, report, merge, mutation, write) computes `NamePageFetched`; a failed results request or write exits |
| NameSync.NamePageStepFails | JiraUpdateFromXrayScript/updateJiraEpicsFromXray.py:84-195 | a page ends the script exactly when one of its four requests fails or some run's suite has no Nextworld result |
| NameSync.NamePageStepEffect | JiraUpdateFromXrayScript/updateJiraEpicsFromXray.py:114-198 | a page that goes through adds its runs with a suite name to `testsFound` and its absent statuses to `testSuitesNotFound`; it makes exactly one write, requests its offset, and hands back the total it was told |
| NameSync.SyncExecution | JiraUpdateFromXrayScript/updateJiraEpicsFromXray.py:76-200 | the `while True` page loop of one execution computes `NameExecution` |
| NameSync.NameExecutionUniform | JiraUpdateFromXrayScript/updateJiraEpicsFromXray.py:197-200 | when every answer reports total T, a loop that goes through requests exactly the offsets 0, 100, ..., 100(PagesFor(T)-1) and makes one write per page |
| NameSync.SyncAll | JiraUpdateFromXrayScript/updateJiraEpicsFromXray.py:68-200 | the loop over configured executions computes `NameSyncRun`, carrying the lists and `testsFound` across executions |
| NameSync.NameSyncRunErrSticks | JiraUpdateFromXrayScript/updateJiraEpicsFromXray.py:84-87 | an execution that exits ends the whole run with that error |
| NameSync.NameExecutionGrows | JiraUpdateFromXrayScript/updateJiraEpicsFromXray.py:68-70 | `testsFound` never decreases, `testSuitesNotFound` and the writes only grow at the end, and every execution makes at least one write |
| LinkSync.BatchWrites | JiraUpdateFromXrayScript/UpdateXrayTestsWithLatestStatus.py:193-207 | one mutation per batch, with the aliases of each batch starting again at 1 |
| LinkSync.WriteBatches | JiraUpdateFromXrayScript/UpdateXrayTestsWithLatestStatus.py:193-212 | the batch loop sends `BatchWrites`; a failed write does not stop later batches |
| LinkSync.SyncAttempt | JiraUpdateFromXrayScript/UpdateXrayTestsWithLatestStatus.py:82-147 | one attempt at a page computes `LinkAttemptStep`: a failed execution request exits, and a failed runs or results request retries |
| LinkSync.SyncFetchedAttempt | JiraUpdateFromXrayScript/UpdateXrayTestsWithLatestStatus.py:149-212 | the rest of the attempt (translation, report, merge, batches) computes `LinkPageFetched` |
| LinkSync.LinkAttemptFails | JiraUpdateFromXrayScript/UpdateXrayTestsWithLatestStatus.py:88-91 | an attempt ends the script exactly when its execution request fails, or its runs and results came back and some run's link has no result |
| LinkSync.LinkAttemptRetries | JiraUpdateFromXrayScript/UpdateXrayTestsWithLatestStatus.py:115-118 | an attempt is retried exactly when the execution came back but the runs or results did not; a retry records only its offset and, when the runs came back, their count in `testsFound` |
| LinkSync.LinkPageWrites | JiraUpdateFromXrayScript/UpdateXrayTestsWithLatestStatus.py:186-208 | a page that goes through makes ceil(n/25) writes for its n distinct linked run ids (the keys of `testRunIds`), keeps the earlier writes, requests its offset and hands back its execution's total |
| LinkSync.RunPages | JiraUpdateFromXrayScript/UpdateXrayTestsWithLatestStatus.py:78-221 | the `while True` loop of one execution, with `testsCounted` and `loopCount`, computes `PageLoop` for whatever attempt step it is given |
| LinkSync.SyncLinkExecution | JiraUpdateFromXrayScript/UpdateXrayTestsWithLatestStatus.py:78-221 | the loop with the script's own attempt step computes `LinkExecution` |
| LinkSync.LinkExecutionUniform | JiraUpdateFromXrayScript/UpdateXrayTestsWithLatestStatus.py:214-221 | when every answer reports total T, the offsets climb, with retries, one page at a time from 0 to page PagesFor(T)-1; the token is refreshed once per positive multiple of 5 among the `loopCount` values of the non-final pages, and never after the last page |
| LinkSync.PageLoopUniform | JiraUpdateFromXrayScript/UpdateXrayTestsWithLatestStatus.py:214-221 | the same climb and refresh count, from any attempt and page, for any step that records its offset and reports the page's total |
| LinkSync.SyncAllLinks | JiraUpdateFromXrayScript/UpdateXrayTestsWithLatestStatus.py:75-221 | the loop over configured executions computes `LinkSyncRun` |
| LinkSync.LinkSyncRunErrSticks | JiraUpdateFromXrayScript/UpdateXrayTestsWithLatestStatus.py:88-91 | an execution that exits ends the whole run with that error |
| Auth.AuthServerUrl | JiraUpdateFromXrayScript/UpdateXrayTestsWithLatestStatus.py:41-45 | whichever server is chosen, the URL starts with `https://auth` and ends with the token endpoint `nextworld.net/v2/Authenticate/Tokens` |
| Auth.StripDots | JiraUpdateFromXrayScript/UpdateXrayTestsWithLatestStatus.py:42 | `replace(".", "")` leaves no dot and never lengthens the id |
| Auth.StripDotsCounts | JiraUpdateFromXrayScript/UpdateXrayTestsWithLatestStatus.py:42 | every character other than a dot is kept as often as it occurs; all dots go |
| Auth.StripDotsFixpoint | JiraUpdateFromXrayScript/UpdateXrayTestsWithLatestStatus.py:42 | an id without dots is left unchanged |
| Auth.StripDotsAppend | JiraUpdateFromXrayScript/UpdateXrayTestsWithLatestStatus.py:42 | removing dots commutes with concatenation |
| Auth.StripDotsIdempotent | JiraUpdateFromXrayScript/UpdateXrayTestsWithLatestStatus.py:42 | removing dots twice is removing them once |
| Auth.AuthServerUrlDefault | JiraUpdateFromXrayScript/UpdateXrayTestsWithLatestStatus.py:41-45 | the production server is chosen exactly when the id is absent or empty; an id made only of dots still picks a pipeline server |
| Auth.AuthServerUrlPipeline | JiraUpdateFromXrayScript/UpdateXrayTestsWithLatestStatus.py:42-43 | a pipeline URL is the fixed prefix, the dot-free id and the fixed suffix, so the host label carries no dot |
| Auth.AuthServerUrlSame | JiraUpdateFromXrayScript/UpdateXrayTestsWithLatestStatus.py:42-43 | two pipeline ids pick the same server exactly when they agree once their dots are removed |

## Left out

- All HTTP traffic, headers, credentials, config loading and `print` output. Each response is
  an input, and a request's failure (`not response.ok`, or `getTestExecution` being null) is
  `FetchFailed`.
- LinkSync.LinkAttemptStep: a retry assumes that the failed runs or results response still has a
  JSON body. The script calls `.json()` on the failed runs response before its `continue`, and on
  the results response before it checks `ok`. A body that is not JSON would raise and stop the
  script instead of retrying, and the model does not capture that.
- Loops that only build request text or output have no method: the `testIssueIds` loops of the
  epic part (`updateJiraEpicsFromXray.py:256-257`, `UpdateEpicTestSummaries.py:94-95`), the
  `", ".join(...)` comprehensions and the print loops. Their results only go into read queries.
- The GraphQL query templates for reads, and the Jira JQL and JSON payloads. They are text for
  foreign services. The write mutation's alias structure is modelled.
- The Jira epic search (`getJiraEpicsResponse`) and its failure exit. The epics are the input
  of `EpicsRun`.
- `exit()` is modelled as `Err(Aborted)`. The writes made before an exit do not appear in the
  error result.
- `Err(ResponsesExhausted)` does not occur in the scripts. It stands for "no more responses
  were supplied", which is how the model keeps the `while True` loops finite. A script whose
  requests kept failing would retry forever.
- The Nextworld token is modelled only as a refresh count and a refresh outcome per attempt
  (`LinkAttempt.refreshOk`). The token text and its expiry are not modelled.
- `Epics.ReleasablePercent` uses exact `real` arithmetic instead of a Python float, and the
  `str(releasablePercent)` text is not modelled.
- A failed epic update and a failed batch write are only logged by the scripts. They are not
  modelled as responses.
- Missing keys in the JSON answers (any `KeyError` or `AttributeError` outside the merge) and
  missing config keys. Fields that may be null are `Option`.
- What the servers do: for example, whether `limit: 1` returns at most one execution. The
  model takes the first execution of the answer as given.
- The final summary lines, including `testsFound - len(testSummariesNotFound)`. The two
  quantities are modelled, the printing is not.
- `RELEASE_PIPELINE_ID` is an `Option<string>`, where `None` stands for a null config value.
- NameSync.NameExecutionUniform, LinkSync.LinkExecutionUniform and Epics.TallyEpicUniform: each
  is stated only for answers that all report the same total. When the total changes between
  pages, the loop follows whatever each answer reports (`NameExecution`, `PageLoop`,
  `TallyEpic`), and no closed form is claimed.
