/**
 * The first half of updateJiraEpicsFromXray.py: for each configured test execution, page through
 * its tests 100 at a time; for each page, fetch the runs, ask Nextworld for the latest result of
 * each run's suite (correlated by Test Suite Name), and write the translated statuses back to
 * the runs in one mutation. Every failed request exits the script.
 */
module NameSync {
  import opened Wrappers
  import opened Dicts
  import opened Reconcile
  import opened Batching
  import opened Paging

  /**
   * The responses one page receives, in request order: the execution, the runs, the Nextworld
   * results and the write. A response after a failed one is never looked at.
   */
  datatype NamePage = NamePage(
    execution: Fetch<TestsPage>,
    runs: Fetch<seq<TestRun>>,
    results: Fetch<seq<RunnerResult>>,
    writeOk: bool)

  /**
   * The state the loops carry across pages and executions: `testSuitesNotFound`,
   * `testSummariesNotFound`, `testsFound`, and the writes made and offsets requested, in order.
   */
  datatype SyncLog = SyncLog(
    suitesNotFound: seq<Option<string>>,
    summariesNotFound: seq<string>,
    testsFound: nat,
    writes: seq<string>,
    offsets: seq<nat>)

  const EmptyLog := SyncLog([], [], 0, [], [])

  /** One page at `start: offset`: the new state and the total the execution reported. */
  function NamePageStep(log: SyncLog, offset: nat, p: NamePage): Result<(SyncLog, int)> {
    if p.execution.FetchFailed? || p.runs.FetchFailed? || p.results.FetchFailed? then Err(Aborted)
    else NamePageFetched(log, offset, p.execution.value, p.runs.value, p.results.value, p.writeOk)
  }

  /** The rest of a page once its three reads have come back. */
  function NamePageFetched(log: SyncLog, offset: nat, page: TestsPage, runs: seq<TestRun>,
                           results: seq<RunnerResult>, writeOk: bool): Result<(SyncLog, int)>
  {
    var notFound := log.suitesNotFound + NotFoundSuites(results);
    var report := KeysWithSuiteIn(SuiteBySummary(page.tests), notFound);
    match Merged(RunIndex(BySuiteName, runs), StatusIndex(BySuiteName, results))
    case Err(e) => Err(e)
    case Ok(merged) =>
      if !writeOk then Err(Aborted)
      else Ok((SyncLog(notFound, log.summariesNotFound + report,
                       log.testsFound + QualifyingCount(BySuiteName, runs),
                       log.writes + [MutationQuery(Concat(Entries(merged)))],
                       log.offsets + [offset]),
               page.total))
  }

  /** The body of the page loop, request by request. */
  method SyncPage(log: SyncLog, offset: nat, p: NamePage) returns (r: Result<(SyncLog, int)>)
    ensures r == NamePageStep(log, offset, p)
  {
    if p.execution.FetchFailed? {
      return Err(Aborted);
    }
    if p.runs.FetchFailed? {
      return Err(Aborted);
    }
    r := SyncFetched(log, offset, p.execution.value, p.runs.value, p.results, p.writeOk);
  }

  /** The page once its execution and runs have come back: results, report, merge and write. */
  method SyncFetched(log: SyncLog, offset: nat, page: TestsPage, runs: seq<TestRun>,
                     results: Fetch<seq<RunnerResult>>, writeOk: bool) returns (r: Result<(SyncLog, int)>)
    ensures r == if results.FetchFailed? then Err(Aborted) else NamePageFetched(log, offset, page, runs, results.value, writeOk)
  {
    var testRunIds, testSuiteNames, found := CollectRuns(BySuiteName, runs);
    var testsFound := log.testsFound + found;
    if results.FetchFailed? {
      return Err(Aborted);
    }
    var testSuiteStatuses, notFound := TranslateResults(BySuiteName, results.value);
    var testSuitesNotFound := log.suitesNotFound + notFound;
    var report := ReportBySummary(page.tests, testSuitesNotFound);
    var runIdStatuses := MergeStatuses(testRunIds, testSuiteStatuses);
    if runIdStatuses.Err? {
      return Err(runIdStatuses.error);
    }
    var updateTestRunData := BuildMutation(runIdStatuses.value);
    assert runIdStatuses == Merged(RunIndex(BySuiteName, runs), StatusIndex(BySuiteName, results.value));
    assert testsFound == log.testsFound + QualifyingCount(BySuiteName, runs);
    assert testSuitesNotFound == log.suitesNotFound + NotFoundSuites(results.value);
    assert report == KeysWithSuiteIn(SuiteBySummary(page.tests), testSuitesNotFound);
    if !writeOk {
      return Err(Aborted);
    }
    var log' := SyncLog(testSuitesNotFound, log.summariesNotFound + report, testsFound,
                        log.writes + [MutationQuery(updateTestRunData)], log.offsets + [offset]);
    r := Ok((log', page.total));
  }

  /** A page fails exactly when one of its requests fails or a run's suite has no Nextworld result. */
  lemma NamePageStepFails(log: SyncLog, offset: nat, p: NamePage)
    ensures NamePageStep(log, offset, p).Err? <==>
      p.execution.FetchFailed? || p.runs.FetchFailed? || p.results.FetchFailed? || !p.writeOk ||
      exists i :: 0 <= i < |RunIndex(BySuiteName, p.runs.value)| &&
        Some(RunIndex(BySuiteName, p.runs.value)[i].1) !in KeySet(StatusIndex(BySuiteName, p.results.value))
  {
    if p.execution.Fetched? && p.runs.Fetched? && p.results.Fetched? {
      MergedFails(RunIndex(BySuiteName, p.runs.value), StatusIndex(BySuiteName, p.results.value));
    }
  }

  /**
   * A page that goes through adds the runs with a suite name to `testsFound`, the page's absent
   * statuses to `testSuitesNotFound`, exactly one write, and its offset, and hands back the
   * total its execution reported.
   */
  lemma NamePageStepEffect(log: SyncLog, offset: nat, p: NamePage)
    requires NamePageStep(log, offset, p).Ok?
    ensures var (log', total) := NamePageStep(log, offset, p).value;
      total == p.execution.value.total &&
      log'.testsFound == log.testsFound + |SuiteKeys(BySuiteName, p.runs.value)| &&
      log'.suitesNotFound == log.suitesNotFound + NotFoundSuites(p.results.value) &&
      |log'.writes| == |log.writes| + 1 && log'.writes[..|log.writes|] == log.writes &&
      log'.offsets == log.offsets + [offset]
  {
    CollectLength(p.runs.value, KeepRun(BySuiteName), RunKeyText(BySuiteName));
  }

  /**
   * The page loop of one execution from page i (`testsCounted` = 100 * i): it stops after the first
   * page whose next offset reaches the reported total.
   */
  function NameExecution(pages: seq<NamePage>, i: nat, log: SyncLog): Result<SyncLog>
    decreases |pages| - i
  {
    if i >= |pages| then Err(ResponsesExhausted)
    else
      match NamePageStep(log, 100 * i, pages[i])
      case Err(e) => Err(e)
      case Ok((log', total)) =>
        if 100 * (i + 1) >= total then Ok(log') else NameExecution(pages, i + 1, log')
  }

  /** The `while True` loop of one execution. */
  method SyncExecution(pages: seq<NamePage>, log: SyncLog) returns (r: Result<SyncLog>)
    ensures r == NameExecution(pages, 0, log)
  {
    var testsCounted := 0;
    var i := 0;
    var current := log;
    while i < |pages|
      invariant testsCounted == 100 * i
      invariant NameExecution(pages, i, current) == NameExecution(pages, 0, log)
      decreases |pages| - i
    {
      var step := SyncPage(current, testsCounted, pages[i]);
      if step.Err? {
        return Err(step.error);
      }
      current := step.value.0;
      testsCounted := testsCounted + 100;
      i := i + 1;
      if testsCounted >= step.value.1 {
        return Ok(current);
      }
    }
    return Err(ResponsesExhausted);
  }

  /**
   * When every execution answer of the loop reports the same total T, a loop that goes through
   * requests exactly the offsets 100 * i, ..., 100 * (PagesFor(T) - 1), one page each, and makes
   * one write per page.
   */
  lemma {:induction false} NameExecutionUniform(pages: seq<NamePage>, i: nat, log: SyncLog, total: int)
    requires forall j :: 0 <= j < |pages| && pages[j].execution.Fetched? ==> pages[j].execution.value.total == total
    requires i < PagesFor(total)
    requires NameExecution(pages, i, log).Ok?
    ensures NameExecution(pages, i, log).value.offsets == log.offsets + Offsets(i, PagesFor(total))
    ensures |NameExecution(pages, i, log).value.writes| == |log.writes| + PagesFor(total) - i
    decreases |pages| - i
  {
    NamePageStepShape(log, 100 * i, pages[i]);
    var step := NamePageStep(log, 100 * i, pages[i]).value;
    LastPage(total, i);
    if 100 * (i + 1) < step.1 {
      NameExecutionUniform(pages, i + 1, step.0, total);
      NameExecutionNext(pages, i, log);
      OffsetsAfter(log.offsets, i, PagesFor(total));
    } else {
      NameExecutionLast(pages, i, log);
    }
  }

  /** A page that goes through and does not reach the total hands its state to the next page. */
  lemma NameExecutionNext(pages: seq<NamePage>, i: nat, log: SyncLog)
    requires i < |pages| && NamePageStep(log, 100 * i, pages[i]).Ok?
    requires 100 * (i + 1) < NamePageStep(log, 100 * i, pages[i]).value.1
    ensures NameExecution(pages, i, log) == NameExecution(pages, i + 1, NamePageStep(log, 100 * i, pages[i]).value.0)
  {
  }

  /** A page that goes through and reaches the total ends the loop with its state. */
  lemma NameExecutionLast(pages: seq<NamePage>, i: nat, log: SyncLog)
    requires i < |pages| && NamePageStep(log, 100 * i, pages[i]).Ok?
    requires 100 * (i + 1) >= NamePageStep(log, 100 * i, pages[i]).value.1
    ensures NameExecution(pages, i, log) == Ok(NamePageStep(log, 100 * i, pages[i]).value.0)
    ensures Offsets(i, i + 1) == [100 * i]
  {
  }

  /** What the page loop needs of a page that goes through: its total, one more write, its offset. */
  lemma NamePageStepShape(log: SyncLog, offset: nat, p: NamePage)
    requires NamePageStep(log, offset, p).Ok?
    ensures NamePageStep(log, offset, p).value.1 == p.execution.value.total
    ensures |NamePageStep(log, offset, p).value.0.writes| == |log.writes| + 1
    ensures NamePageStep(log, offset, p).value.0.offsets == log.offsets + [offset]
  {
    NamePageStepEffect(log, offset, p);
  }

  /** The loop over the configured executions, carrying the state from one to the next. */
  function NameSyncRun(executions: seq<seq<NamePage>>): Result<SyncLog> {
    if executions == [] then Ok(EmptyLog)
    else
      match NameSyncRun(executions[..|executions| - 1])
      case Err(e) => Err(e)
      case Ok(log) => NameExecution(executions[|executions| - 1], 0, log)
  }

  /** Once an execution has exited the script, so has the whole run. */
  lemma {:induction false} NameSyncRunErrSticks(executions: seq<seq<NamePage>>, i: nat)
    requires i <= |executions| && NameSyncRun(executions[..i]).Err?
    ensures NameSyncRun(executions) == NameSyncRun(executions[..i])
    decreases |executions| - i
  {
    if i < |executions| {
      assert executions[..i + 1][..i] == executions[..i];
      NameSyncRunErrSticks(executions, i + 1);
    } else {
      assert executions[..i] == executions;
    }
  }

  method SyncAll(executions: seq<seq<NamePage>>) returns (r: Result<SyncLog>)
    ensures r == NameSyncRun(executions)
  {
    var log := EmptyLog;
    for e := 0 to |executions|
      invariant NameSyncRun(executions[..e]) == Ok(log)
    {
      assert executions[..e + 1][..e] == executions[..e];
      var step := SyncExecution(executions[e], log);
      if step.Err? {
        NameSyncRunErrSticks(executions, e + 1);
        return step;
      }
      log := step.value;
    }
    assert executions[..|executions|] == executions;
    r := Ok(log);
  }

  /** The run-wide lists and counters only grow: no page takes back what an earlier one recorded. */
  lemma {:induction false} NameExecutionGrows(pages: seq<NamePage>, i: nat, log: SyncLog)
    requires NameExecution(pages, i, log).Ok?
    ensures var log' := NameExecution(pages, i, log).value;
      log'.testsFound >= log.testsFound &&
      |log'.suitesNotFound| >= |log.suitesNotFound| && log'.suitesNotFound[..|log.suitesNotFound|] == log.suitesNotFound &&
      |log'.writes| > |log.writes| && log'.writes[..|log.writes|] == log.writes
    decreases |pages| - i
  {
    NamePageStepEffect(log, 100 * i, pages[i]);
    var (log', t) := NamePageStep(log, 100 * i, pages[i]).value;
    if 100 * (i + 1) < t {
      NameExecutionGrows(pages, i + 1, log');
      var log'' := NameExecution(pages, i + 1, log').value;
      assert log''.writes[..|log.writes|] == log''.writes[..|log'.writes|][..|log.writes|];
      assert log''.suitesNotFound[..|log.suitesNotFound|] == log''.suitesNotFound[..|log'.suitesNotFound|][..|log.suitesNotFound|];
    }
  }
}
