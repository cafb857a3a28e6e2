/**
 * The loop of UpdateXrayTestsWithLatestStatus.py: like the name-based sync, but runs are tied to
 * Nextworld by their Test Suite Link, a failed runs or results request retries the same page
 * instead of exiting, statuses are written in batches of 25, and the Nextworld token is refreshed
 * every fifth page.
 */
module LinkSync {
  import opened Wrappers
  import opened Dicts
  import opened Reconcile
  import opened Batching
  import opened Paging

  /**
   * The responses one attempt at a page receives: the execution, the runs and the Nextworld
   * results, and, when the attempt is followed by a token refresh, whether that refresh succeeded.
   * The batch writes have no response here: a failed write is only logged.
   */
  datatype LinkAttempt = LinkAttempt(
    execution: Fetch<TestsPage>,
    runs: Fetch<seq<TestRun>>,
    results: Fetch<seq<RunnerResult>>,
    refreshOk: bool)

  /**
   * `testSuitesNotFound`, `testSummariesNotFound` and `testsFound`, with the writes made and the
   * offsets requested (one per attempt), in order.
   */
  datatype LinkLog = LinkLog(
    suitesNotFound: seq<Option<string>>,
    summariesNotFound: seq<string>,
    testsFound: nat,
    writes: seq<string>,
    offsets: seq<nat>)

  /** The log together with the number of Nextworld token refreshes so far. */
  datatype LinkState = LinkState(log: LinkLog, refreshes: nat)

  const EmptyLinkState := LinkState(LinkLog([], [], 0, [], []), 0)

  /** How an attempt that did not exit ended: `continue` (same page again) or the page done, with its total. */
  datatype Attempted = Retried(log: LinkLog) | PageDone(log: LinkLog, total: int)

  /** One mutation per batch; the aliases of each start again at 1. */
  function BatchWrites(batches: seq<Dict<string, Option<string>>>): (ws: seq<string>)
    ensures |ws| == |batches|
  {
    seq(|batches|, b requires 0 <= b < |batches| => MutationQuery(Concat(Entries(batches[b]))))
  }

  /** The batch loop: build and send the mutation of each batch in turn. */
  method WriteBatches(batches: seq<Dict<string, Option<string>>>) returns (ws: seq<string>)
    ensures ws == BatchWrites(batches)
  {
    ws := [];
    for b := 0 to |batches|
      invariant ws == BatchWrites(batches[..b])
    {
      var updateTestRunData := BuildMutation(batches[b]);
      ws := ws + [MutationQuery(updateTestRunData)];
    }
    assert batches[..|batches|] == batches;
  }

  /**
   * One attempt at the page at `start: offset`. A failed execution request exits; a failed runs
   * request retries; a failed results request retries too, after `testsFound` has already
   * counted the page's runs.
   */
  function LinkAttemptStep(log: LinkLog, offset: nat, a: LinkAttempt): Result<Attempted> {
    if a.execution.FetchFailed? then Err(Aborted)
    else
      var log := log.(offsets := log.offsets + [offset]);
      if a.runs.FetchFailed? then Ok(Retried(log))
      else
        var log := log.(testsFound := log.testsFound + QualifyingCount(BySuiteLink, a.runs.value));
        if a.results.FetchFailed? then Ok(Retried(log))
        else LinkPageFetched(log, a.execution.value, a.runs.value, a.results.value)
  }

  /** The rest of an attempt whose three reads came back: report, merge and batch writes. */
  function LinkPageFetched(log: LinkLog, page: TestsPage, runs: seq<TestRun>, results: seq<RunnerResult>): Result<Attempted> {
    var notFound := log.suitesNotFound + NotFoundSuites(results);
    var report := Collect(SuiteByIssue(page.tests), SuiteIn(notFound), LabelOf(SummaryByIssue(page.tests)));
    match Merged(RunIndex(BySuiteLink, runs), StatusIndex(BySuiteLink, results))
    case Err(e) => Err(e)
    case Ok(merged) =>
      Ok(PageDone(log.(suitesNotFound := notFound,
                       summariesNotFound := log.summariesNotFound + report,
                       writes := log.writes + BatchWrites(Chunks(merged))),
                  page.total))
  }

  /**
   * The body of the page loop, request by request. It stands alone: it is proved to compute
   * LinkAttemptStep, and the page loop (RunPages) applies that function as its step.
   */
  method SyncAttempt(log: LinkLog, offset: nat, a: LinkAttempt) returns (r: Result<Attempted>)
    ensures r == LinkAttemptStep(log, offset, a)
  {
    if a.execution.FetchFailed? {
      return Err(Aborted);
    }
    var current := log.(offsets := log.offsets + [offset]);
    if a.runs.FetchFailed? {
      return Ok(Retried(current));
    }
    var testRunIds, testSuiteLinks, found := CollectRuns(BySuiteLink, a.runs.value);
    current := current.(testsFound := current.testsFound + found);
    if a.results.FetchFailed? {
      return Ok(Retried(current));
    }
    r := SyncFetchedAttempt(current, a.execution.value, a.runs.value, testRunIds, a.results.value);
  }

  /** The attempt once all three reads are in. */
  method SyncFetchedAttempt(log: LinkLog, page: TestsPage, runs: seq<TestRun>, testRunIds: Dict<string, string>,
                            results: seq<RunnerResult>) returns (r: Result<Attempted>)
    requires testRunIds == RunIndex(BySuiteLink, runs)
    ensures r == LinkPageFetched(log, page, runs, results)
  {
    var testSuiteStatuses, notFound := TranslateResults(BySuiteLink, results);
    var testSuitesNotFound := log.suitesNotFound + notFound;
    var report := ReportByIssue(page.tests, testSuitesNotFound);
    var runIdStatuses := MergeStatuses(testRunIds, testSuiteStatuses);
    if runIdStatuses.Err? {
      return Err(runIdStatuses.error);
    }
    var batches := ChunkDict(runIdStatuses.value);
    var ws := WriteBatches(batches);
    assert runIdStatuses == Merged(RunIndex(BySuiteLink, runs), StatusIndex(BySuiteLink, results));
    assert report == Collect(SuiteByIssue(page.tests), SuiteIn(testSuitesNotFound), LabelOf(SummaryByIssue(page.tests)));
    r := Ok(PageDone(log.(suitesNotFound := testSuitesNotFound,
                          summariesNotFound := log.summariesNotFound + report,
                          writes := log.writes + ws),
                     page.total));
  }

  /** An attempt exits exactly when its execution request fails or a run's link has no Nextworld result. */
  lemma LinkAttemptFails(log: LinkLog, offset: nat, a: LinkAttempt)
    ensures LinkAttemptStep(log, offset, a).Err? <==>
      a.execution.FetchFailed? ||
      (a.runs.Fetched? && a.results.Fetched? &&
       exists i :: 0 <= i < |RunIndex(BySuiteLink, a.runs.value)| &&
         Some(RunIndex(BySuiteLink, a.runs.value)[i].1) !in KeySet(StatusIndex(BySuiteLink, a.results.value)))
  {
    if a.execution.Fetched? && a.runs.Fetched? && a.results.Fetched? {
      MergedFails(RunIndex(BySuiteLink, a.runs.value), StatusIndex(BySuiteLink, a.results.value));
    }
  }

  /**
   * An attempt is retried exactly when its execution came back but its runs or results did not; a
   * retry records only its offset and, when the runs came back, their count in `testsFound`.
   */
  lemma LinkAttemptRetries(log: LinkLog, offset: nat, a: LinkAttempt)
    ensures (LinkAttemptStep(log, offset, a).Ok? && LinkAttemptStep(log, offset, a).value.Retried?) <==>
      a.execution.Fetched? && (a.runs.FetchFailed? || a.results.FetchFailed?)
    ensures LinkAttemptStep(log, offset, a).Ok? && LinkAttemptStep(log, offset, a).value.Retried? ==>
      LinkAttemptStep(log, offset, a).value.log ==
        log.(offsets := log.offsets + [offset],
             testsFound := log.testsFound + if a.runs.Fetched? then |SuiteKeys(BySuiteLink, a.runs.value)| else 0)
  {
    if a.runs.Fetched? {
      CollectLength(a.runs.value, KeepRun(BySuiteLink), RunKeyText(BySuiteLink));
    }
  }

  /**
   * A page that goes through writes ceil(n / 25) mutations for its n runs with a link, one per
   * batch of `chunk_dict`, and hands back the total its execution reported.
   */
  lemma LinkPageWrites(log: LinkLog, offset: nat, a: LinkAttempt)
    requires LinkAttemptStep(log, offset, a).Ok? && LinkAttemptStep(log, offset, a).value.PageDone?
    ensures var done := LinkAttemptStep(log, offset, a).value;
      done.total == a.execution.value.total &&
      done.log.writes[..|log.writes|] == log.writes &&
      |done.log.writes| == |log.writes| + (|RunIndex(BySuiteLink, a.runs.value)| + 24) / 25 &&
      done.log.offsets == log.offsets + [offset]
  {
    var runIds := RunIndex(BySuiteLink, a.runs.value);
    var statuses := StatusIndex(BySuiteLink, a.results.value);
    RunIndexMeaning(BySuiteLink, a.runs.value);
    MergedContents(runIds, statuses);
    var merged := Merged(runIds, statuses).value;
    assert |Keys(merged)| == |Keys(runIds)|;
  }

  /** What the page loop needs of a finished page: its total and its offset. */
  lemma LinkPageShape(log: LinkLog, offset: nat, a: LinkAttempt)
    requires LinkAttemptStep(log, offset, a).Ok? && LinkAttemptStep(log, offset, a).value.PageDone?
    ensures LinkAttemptStep(log, offset, a).value.total == a.execution.value.total
    ensures LinkAttemptStep(log, offset, a).value.log.offsets == log.offsets + [offset]
  {
  }

  // ---------------------------------------------------------------- the page loop

  /** What the page loop does with one attempt: LinkAttemptStep, or any step that records alike. */
  type AttemptStep = (LinkLog, nat, LinkAttempt) -> Result<Attempted>

  /**
   * The page loop from attempt j at page `page` (`testsCounted` = 100 * page and `loopCount` =
   * page), with `step` for the body. A retried attempt asks for the same page again. After a
   * finished page the loop ends once the next offset reaches the total; otherwise the token is
   * refreshed when `loopCount` is a positive multiple of 5 (a failed refresh exits) and the loop
   * moves to the next page.
   */
  function PageLoop(step: AttemptStep, attempts: seq<LinkAttempt>, j: nat, page: nat, st: LinkState): Result<LinkState>
    decreases |attempts| - j
  {
    if j >= |attempts| then Err(ResponsesExhausted)
    else
      match step(st.log, 100 * page, attempts[j])
      case Err(e) => Err(e)
      case Ok(Retried(log')) => PageLoop(step, attempts, j + 1, page, LinkState(log', st.refreshes))
      case Ok(PageDone(log', total)) =>
        if 100 * (page + 1) >= total then Ok(LinkState(log', st.refreshes))
        else if RefreshDue(page) && !attempts[j].refreshOk then Err(Aborted)
        else PageLoop(step, attempts, j + 1, page + 1,
                      LinkState(log', st.refreshes + if RefreshDue(page) then 1 else 0))
  }

  /** The loop over the pages of one execution. */
  function LinkExecution(attempts: seq<LinkAttempt>, st: LinkState): Result<LinkState> {
    PageLoop(LinkAttemptStep, attempts, 0, 0, st)
  }

  /**
   * The `while True` loop of one execution, with its two counters, for any attempt step: the body
   * of an attempt is the function `step`, here LinkAttemptStep, which SyncAttempt is proved to
   * compute; the loop applies the function, not the method.
   */
  method RunPages(step: AttemptStep, attempts: seq<LinkAttempt>, st: LinkState) returns (r: Result<LinkState>)
    ensures r == PageLoop(step, attempts, 0, 0, st)
  {
    var testsCounted := 0;
    var loopCount := 0;
    var j := 0;
    var current := st.log;
    var refreshes := st.refreshes;
    while j < |attempts|
      invariant testsCounted == 100 * loopCount
      invariant PageLoop(step, attempts, j, loopCount, LinkState(current, refreshes)) == PageLoop(step, attempts, 0, 0, st)
      decreases |attempts| - j
    {
      var outcome := step(current, testsCounted, attempts[j]);
      if outcome.Err? {
        return Err(outcome.error);
      }
      if outcome.value.Retried? {
        current := outcome.value.log;
        j := j + 1;
        continue;
      }
      current := outcome.value.log;
      testsCounted := testsCounted + 100;
      if testsCounted >= outcome.value.total {
        return Ok(LinkState(current, refreshes));
      }
      if RefreshDue(loopCount) {
        if !attempts[j].refreshOk {
          return Err(Aborted);
        }
        refreshes := refreshes + 1;
      }
      loopCount := loopCount + 1;
      j := j + 1;
    }
    return Err(ResponsesExhausted);
  }

  /** The page loop of one execution of UpdateXrayTestsWithLatestStatus.py. */
  method SyncLinkExecution(attempts: seq<LinkAttempt>, st: LinkState) returns (r: Result<LinkState>)
    ensures r == LinkExecution(attempts, st)
  {
    r := RunPages(LinkAttemptStep, attempts, st);
  }

  /** A step that records the offset it was asked for and, on a finished page, hands back the page's own total. */
  ghost predicate Records(step: AttemptStep) {
    forall log: LinkLog, offset: nat, a: LinkAttempt ::
      step(log, offset, a).Ok? ==>
        a.execution.Fetched? && step(log, offset, a).value.log.offsets == log.offsets + [offset] &&
        (step(log, offset, a).value.PageDone? ==> step(log, offset, a).value.total == a.execution.value.total)
  }

  lemma LinkAttemptStepRecords()
    ensures Records(LinkAttemptStep)
  {
    forall log: LinkLog, offset: nat, a: LinkAttempt | LinkAttemptStep(log, offset, a).Ok?
      ensures a.execution.Fetched? && LinkAttemptStep(log, offset, a).value.log.offsets == log.offsets + [offset]
      ensures LinkAttemptStep(log, offset, a).value.PageDone? ==> LinkAttemptStep(log, offset, a).value.total == a.execution.value.total
    {
      LinkAttemptRetries(log, offset, a);
      if LinkAttemptStep(log, offset, a).value.PageDone? {
        LinkPageShape(log, offset, a);
      }
    }
  }

  /**
   * When every execution answer reports the same total T, an execution that goes through
   * requests offsets that climb, with retries, from 0 to the last page PagesFor(T) - 1, and
   * refreshes the token once for each positive multiple of 5 among the `loopCount` values of the
   * pages before the last: none after the last page.
   */
  lemma LinkExecutionUniform(attempts: seq<LinkAttempt>, st: LinkState, total: int)
    requires forall k :: 0 <= k < |attempts| && attempts[k].execution.Fetched? ==> attempts[k].execution.value.total == total
    requires LinkExecution(attempts, st).Ok?
    ensures ClimbsAfter(st.log.offsets, LinkExecution(attempts, st).value.log.offsets, 0, PagesFor(total) - 1)
    ensures LinkExecution(attempts, st).value.refreshes == st.refreshes + RefreshesAfter(PagesFor(total) - 1)
  {
    LinkAttemptStepRecords();
    PageLoopUniform(LinkAttemptStep, attempts, 0, 0, st, total);
  }

  /** LinkExecutionUniform from attempt j at page `page`, for any recording step. */
  lemma {:induction false} PageLoopUniform(step: AttemptStep, attempts: seq<LinkAttempt>, j: nat, page: nat, st: LinkState, total: int)
    requires Records(step)
    requires forall k :: 0 <= k < |attempts| && attempts[k].execution.Fetched? ==> attempts[k].execution.value.total == total
    requires page < PagesFor(total)
    requires PageLoop(step, attempts, j, page, st).Ok?
    ensures ClimbsAfter(st.log.offsets, PageLoop(step, attempts, j, page, st).value.log.offsets, page, PagesFor(total) - 1)
    ensures PageLoop(step, attempts, j, page, st).value.refreshes ==
      st.refreshes + RefreshesAfter(PagesFor(total) - 1) - RefreshesAfter(page)
    decreases |attempts| - j, 1
  {
    var a := attempts[j];
    var done := step(st.log, 100 * page, a).value;
    assert done.log.offsets == st.log.offsets + [100 * page];
    if done.Retried? {
      PageLoopUniform(step, attempts, j + 1, page, LinkState(done.log, st.refreshes), total);
      ClimbsBack(st.log.offsets, PageLoop(step, attempts, j, page, st).value.log.offsets, page, page, PagesFor(total) - 1);
    } else {
      assert done.total == total;
      LastPage(total, page);
      if 100 * (page + 1) < done.total {
        var next := LinkState(done.log, st.refreshes + if RefreshDue(page) then 1 else 0);
        assert PageLoop(step, attempts, j, page, st) == PageLoop(step, attempts, j + 1, page + 1, next);
        PageLoopNext(step, attempts, j, page, st, next, total);
      } else {
        assert PageLoop(step, attempts, j, page, st) == Ok(LinkState(done.log, st.refreshes));
        ClimbsOne(st.log.offsets, page);
      }
    }
  }

  /** A finished page short of the total: the loop goes on from the next page with the state `next`. */
  lemma {:induction false} PageLoopNext(step: AttemptStep, attempts: seq<LinkAttempt>, j: nat, page: nat, st: LinkState,
                                        next: LinkState, total: int)
    requires Records(step)
    requires forall k :: 0 <= k < |attempts| && attempts[k].execution.Fetched? ==> attempts[k].execution.value.total == total
    requires j < |attempts| && page + 1 < PagesFor(total)
    requires PageLoop(step, attempts, j, page, st).Ok?
    requires PageLoop(step, attempts, j, page, st) == PageLoop(step, attempts, j + 1, page + 1, next)
    requires next.log.offsets == st.log.offsets + [100 * page]
    requires next.refreshes == st.refreshes + if RefreshDue(page) then 1 else 0
    ensures ClimbsAfter(st.log.offsets, PageLoop(step, attempts, j, page, st).value.log.offsets, page, PagesFor(total) - 1)
    ensures PageLoop(step, attempts, j, page, st).value.refreshes ==
      st.refreshes + RefreshesAfter(PagesFor(total) - 1) - RefreshesAfter(page)
    decreases |attempts| - j, 0
  {
    PageLoopUniform(step, attempts, j + 1, page + 1, next, total);
    var r := PageLoop(step, attempts, j + 1, page + 1, next).value;
    RefreshesStep(st.refreshes, r.refreshes, page, PagesFor(total) - 1);
    ClimbsBack(st.log.offsets, r.log.offsets, page, page + 1, PagesFor(total) - 1);
  }

  // ---------------------------------------------------------------- all executions

  /** The loop over the configured executions, carrying the state from one to the next. */
  function LinkSyncRun(executions: seq<seq<LinkAttempt>>): Result<LinkState> {
    if executions == [] then Ok(EmptyLinkState)
    else
      match LinkSyncRun(executions[..|executions| - 1])
      case Err(e) => Err(e)
      case Ok(st) => LinkExecution(executions[|executions| - 1], st)
  }

  /** Once an execution has exited the script, so has the whole run. */
  lemma {:induction false} LinkSyncRunErrSticks(executions: seq<seq<LinkAttempt>>, i: nat)
    requires i <= |executions| && LinkSyncRun(executions[..i]).Err?
    ensures LinkSyncRun(executions) == LinkSyncRun(executions[..i])
    decreases |executions| - i
  {
    if i < |executions| {
      assert executions[..i + 1][..i] == executions[..i];
      LinkSyncRunErrSticks(executions, i + 1);
    } else {
      assert executions[..i] == executions;
    }
  }

  method SyncAllLinks(executions: seq<seq<LinkAttempt>>) returns (r: Result<LinkState>)
    ensures r == LinkSyncRun(executions)
  {
    var st := EmptyLinkState;
    for e := 0 to |executions|
      invariant LinkSyncRun(executions[..e]) == Ok(st)
    {
      assert executions[..e + 1][..e] == executions[..e];
      var step := SyncLinkExecution(executions[e], st);
      if step.Err? {
        LinkSyncRunErrSticks(executions, e + 1);
        return step;
      }
      st := step.value;
    }
    assert executions[..|executions|] == executions;
    r := Ok(st);
  }
}
