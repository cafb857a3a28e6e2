/**
 * Reconciliation of one page: which Xray test runs take part, what status each Nextworld
 * result translates to, the run-id to status merge, and the "not found" report.
 */
module Reconcile {
  import opened Wrappers
  import opened Dicts
  import opened Statuses

  /** A test run from `getTestRuns`: its id and the suite name and suite link of its test. */
  datatype TestRun = TestRun(id: string, suiteName: Option<string>, suiteLink: Option<string>)

  /** One entry of Nextworld's latest-results response. */
  datatype RunnerResult = RunnerResult(status: Option<string>, suiteName: Option<string>, resultLink: Option<string>)

  /** A test of the execution page: issue id, summary and suite name. */
  datatype ExecTest = ExecTest(issueId: string, summary: string, suiteName: Option<string>)

  /** The answer to the execution request: the reported test total and the tests of this page. */
  datatype TestsPage = TestsPage(total: int, tests: seq<ExecTest>)

  /**
   * Which field ties an Xray test to a Nextworld suite: the suite name (customfield_10505 against
   * TestSuiteName) or the suite link (customfield_10490 against TestResultLink).
   */
  datatype Correlation = BySuiteName | BySuiteLink

  /** Python truthiness of an optional string: present and non-empty. */
  predicate Truthy(o: Option<string>) {
    o.Some? && o.value != ""
  }

  function TextOf(o: Option<string>): string {
    if o.Some? then o.value else ""
  }

  function RunKey(c: Correlation, run: TestRun): Option<string> {
    match c
    case BySuiteName => run.suiteName
    case BySuiteLink => run.suiteLink
  }

  function ResultKey(c: Correlation, res: RunnerResult): Option<string> {
    match c
    case BySuiteName => res.suiteName
    case BySuiteLink => res.resultLink
  }

  // The element functions the page loops apply, named so that every use is the same value.
  function KeepRun(c: Correlation): TestRun -> bool { (r: TestRun) => Truthy(RunKey(c, r)) }
  function RunIdOf(r: TestRun): string { r.id }
  function RunKeyText(c: Correlation): TestRun -> string { (r: TestRun) => TextOf(RunKey(c, r)) }
  function Everything<T>(x: T): bool { true }
  function ResultKeyOf(c: Correlation): RunnerResult -> Option<string> { (r: RunnerResult) => ResultKey(c, r) }
  function TranslatedStatus(r: RunnerResult): Option<string> { XrayStatus(r.status) }
  function StatusAbsent(r: RunnerResult): bool { ReportsNotFound(r.status) }
  function ResultSuiteName(r: RunnerResult): Option<string> { r.suiteName }
  function SummaryOf(t: ExecTest): string { t.summary }
  function IssueIdOf(t: ExecTest): string { t.issueId }
  function SuiteNameOf(t: ExecTest): Option<string> { t.suiteName }
  function SuiteIn(notFound: seq<Option<string>>): ((string, Option<string>)) -> bool {
    (p: (string, Option<string>)) => p.1 in notFound
  }
  function KeyOf(p: (string, Option<string>)): string { p.0 }

  // ---------------------------------------------------------------- runs taking part

  /** `testRunIds`: run id to suite name (or link), for runs whose field is non-empty. */
  function RunIndex(c: Correlation, runs: seq<TestRun>): Dict<string, string> {
    IndexBy(runs, KeepRun(c), RunIdOf, RunKeyText(c))
  }

  /** `testSuiteNames` / `testSuiteLinks`: the non-empty fields, one per run, in order. */
  function SuiteKeys(c: Correlation, runs: seq<TestRun>): seq<string> {
    Collect(runs, KeepRun(c), RunKeyText(c))
  }

  /** Number of runs whose correlating field is non-empty. */
  function QualifyingCount(c: Correlation, runs: seq<TestRun>): nat {
    CountKept(runs, KeepRun(c))
  }

  /**
   * The run loop of a page: each run whose correlating field is truthy is indexed, its field
   * is listed for the Nextworld request, and `testsFound` goes up by one.
   */
  method CollectRuns(c: Correlation, runs: seq<TestRun>) returns (runIds: Dict<string, string>, suites: seq<string>, found: nat)
    ensures runIds == RunIndex(c, runs)
    ensures suites == SuiteKeys(c, runs)
    ensures found == QualifyingCount(c, runs) == |suites|
  {
    runIds, suites, found := [], [], 0;
    for i := 0 to |runs|
      invariant runIds == RunIndex(c, runs[..i])
      invariant suites == SuiteKeys(c, runs[..i])
      invariant found == QualifyingCount(c, runs[..i])
    {
      assert runs[..i + 1][..i] == runs[..i];
      var key := RunKey(c, runs[i]);
      if key.Some? && key.value != "" {
        runIds := Put(runIds, runs[i].id, key.value);
        suites := suites + [key.value];
        found := found + 1;
      }
    }
    assert runs[..|runs|] == runs;
    CollectLength(runs, KeepRun(c), RunKeyText(c));
  }

  /**
   * `testRunIds` has one key per id of a run with a non-empty field, and no other; each value
   * is the non-empty field of a run with that id, and of the last such run when an id repeats.
   */
  lemma RunIndexMeaning(c: Correlation, runs: seq<TestRun>)
    ensures NoDupKeys(RunIndex(c, runs))
    ensures KeySet(RunIndex(c, runs)) == set j | 0 <= j < |runs| && Truthy(RunKey(c, runs[j])) :: runs[j].id
    ensures forall i :: 0 <= i < |RunIndex(c, runs)| ==>
      RunIndex(c, runs)[i].1 != "" && FromKept(runs, KeepRun(c), RunIdOf, RunKeyText(c), RunIndex(c, runs)[i])
    ensures forall j :: (0 <= j < |runs| && Truthy(RunKey(c, runs[j])) &&
      forall m :: j < m < |runs| && Truthy(RunKey(c, runs[m])) ==> runs[m].id != runs[j].id) ==>
        Get(RunIndex(c, runs), runs[j].id) == RunKey(c, runs[j])
  {
    var d := RunIndex(c, runs);
    IndexByKeys(runs, KeepRun(c), RunIdOf, RunKeyText(c));
    IndexByValues(runs, KeepRun(c), RunIdOf, RunKeyText(c));
    assert KeySet(d) == set j | 0 <= j < |runs| && Truthy(RunKey(c, runs[j])) :: runs[j].id by {
      assert KeySet(d) == set j | 0 <= j < |runs| && KeepRun(c)(runs[j]) :: RunIdOf(runs[j]);
    }
    forall i | 0 <= i < |d| ensures d[i].1 != "" {
      assert FromKept(runs, KeepRun(c), RunIdOf, RunKeyText(c), d[i]);
      var j :| 0 <= j < |runs| && KeepRun(c)(runs[j]) && d[i] == (RunIdOf(runs[j]), RunKeyText(c)(runs[j]));
    }
    forall j | 0 <= j < |runs| && Truthy(RunKey(c, runs[j])) &&
      (forall m :: j < m < |runs| && Truthy(RunKey(c, runs[m])) ==> runs[m].id != runs[j].id)
      ensures Get(d, runs[j].id) == RunKey(c, runs[j])
    {
      IndexByLast(runs, KeepRun(c), RunIdOf, RunKeyText(c), j);
    }
  }

  // ---------------------------------------------------------------- results and their statuses

  /** `testSuiteStatuses`: each result's key (suite name or result link) to its translated status. */
  function StatusIndex(c: Correlation, results: seq<RunnerResult>): Dict<Option<string>, Option<string>> {
    IndexBy(results, Everything, ResultKeyOf(c), TranslatedStatus)
  }

  /** What a page adds to `testSuitesNotFound`: the TestSuiteName of each result without a status. */
  function NotFoundSuites(results: seq<RunnerResult>): seq<Option<string>> {
    Collect(results, StatusAbsent, ResultSuiteName)
  }

  /** The result loop of a page: translate each status, remember who had none. */
  method TranslateResults(c: Correlation, results: seq<RunnerResult>)
    returns (statuses: Dict<Option<string>, Option<string>>, notFound: seq<Option<string>>)
    ensures statuses == StatusIndex(c, results)
    ensures notFound == NotFoundSuites(results)
  {
    statuses, notFound := [], [];
    for x := 0 to |results|
      invariant statuses == StatusIndex(c, results[..x])
      invariant notFound == NotFoundSuites(results[..x])
    {
      assert results[..x + 1][..x] == results[..x];
      var xrayStatus := XrayStatus(results[x].status);
      if results[x].status.None? {
        notFound := notFound + [results[x].suiteName];
      }
      statuses := Put(statuses, ResultKey(c, results[x]), xrayStatus);
    }
    assert results[..|results|] == results;
  }

  /**
   * Every result's key is a key of `testSuiteStatuses` and nothing else is; the status stored under a
   * key is the translation of the last result carrying that key.
   */
  lemma StatusIndexMeaning(c: Correlation, results: seq<RunnerResult>)
    ensures NoDupKeys(StatusIndex(c, results))
    ensures KeySet(StatusIndex(c, results)) == set j | 0 <= j < |results| :: ResultKey(c, results[j])
    ensures forall j :: (0 <= j < |results| &&
      forall m :: j < m < |results| ==> ResultKey(c, results[m]) != ResultKey(c, results[j])) ==>
        Get(StatusIndex(c, results), ResultKey(c, results[j])) == Some(XrayStatus(results[j].status))
  {
    IndexByKeys(results, Everything, ResultKeyOf(c), TranslatedStatus);
    assert KeySet(StatusIndex(c, results)) == set j | 0 <= j < |results| :: ResultKey(c, results[j]) by {
      assert KeySet(StatusIndex(c, results)) ==
        set j | 0 <= j < |results| && Everything(results[j]) :: ResultKeyOf(c)(results[j]);
    }
    forall j | 0 <= j < |results| &&
      (forall m :: j < m < |results| ==> ResultKey(c, results[m]) != ResultKey(c, results[j]))
      ensures Get(StatusIndex(c, results), ResultKey(c, results[j])) == Some(XrayStatus(results[j].status))
    {
      IndexByLast(results, Everything, ResultKeyOf(c), TranslatedStatus, j);
    }
  }

  /**
   * A suite name is reported as not found exactly when some result carrying it has no status;
   * a result whose status is present, recognised or not, reports nothing.
   */
  lemma NotFoundSuitesMeaning(results: seq<RunnerResult>, name: Option<string>)
    ensures name in NotFoundSuites(results) <==>
      exists j :: 0 <= j < |results| && results[j].status.None? && results[j].suiteName == name
    ensures |NotFoundSuites(results)| == CountKept(results, StatusAbsent)
  {
    CollectMembers(results, StatusAbsent, ResultSuiteName, name);
    CollectLength(results, StatusAbsent, ResultSuiteName);
  }

  /** The silent gap: results that all carry some status, even an unknown one, add nothing to the report. */
  lemma {:induction false} StatusesPresentReportNothing(results: seq<RunnerResult>)
    requires forall j :: 0 <= j < |results| ==> results[j].status.Some?
    ensures NotFoundSuites(results) == []
  {
    if results != [] {
      StatusesPresentReportNothing(results[..|results| - 1]);
    }
  }

  // ---------------------------------------------------------------- the merge

  /**
   * `runIdStatuses`: each run id, in order, with the status stored under its suite. A suite that is
   * not a key of `testSuiteStatuses` raises KeyError, and the first such suite is the error.
   */
  function Merged(runIds: Dict<string, string>, statuses: Dict<Option<string>, Option<string>>)
    : Result<Dict<string, Option<string>>>
  {
    if runIds == [] then Ok([])
    else
      match Merged(runIds[..|runIds| - 1], statuses)
      case Err(e) => Err(e)
      case Ok(m) =>
        var p := runIds[|runIds| - 1];
        match Get(statuses, Some(p.1))
        case None => Err(SuiteMissing(p.1))
        case Some(st) => Ok(Put(m, p.0, st))
  }

  /** Once a prefix of the runs has raised KeyError, the whole merge raises the same error. */
  lemma {:induction false} MergedErrSticks(runIds: Dict<string, string>, statuses: Dict<Option<string>, Option<string>>, i: nat)
    requires i <= |runIds| && Merged(runIds[..i], statuses).Err?
    ensures Merged(runIds, statuses) == Merged(runIds[..i], statuses)
    decreases |runIds| - i
  {
    if i < |runIds| {
      assert runIds[..i + 1][..i] == runIds[..i];
      MergedErrSticks(runIds, statuses, i + 1);
    } else {
      assert runIds[..i] == runIds;
    }
  }

  /** The merge loop; it stops at the first run whose suite has no entry. */
  method MergeStatuses(runIds: Dict<string, string>, statuses: Dict<Option<string>, Option<string>>)
    returns (r: Result<Dict<string, Option<string>>>)
    ensures r == Merged(runIds, statuses)
  {
    var merged: Dict<string, Option<string>> := [];
    for i := 0 to |runIds|
      invariant Merged(runIds[..i], statuses) == Ok(merged)
    {
      assert runIds[..i + 1][..i] == runIds[..i];
      var suiteResult := Get(statuses, Some(runIds[i].1));
      if suiteResult.None? {
        MergedErrSticks(runIds, statuses, i + 1);
        return Err(SuiteMissing(runIds[i].1));
      }
      merged := Put(merged, runIds[i].0, suiteResult.value);
    }
    assert runIds[..|runIds|] == runIds;
    r := Ok(merged);
  }

  /**
   * The merge fails exactly when some run's suite has no entry, and then names the first such
   * suite: every earlier run's suite has one.
   */
  lemma {:induction false} MergedFails(runIds: Dict<string, string>, statuses: Dict<Option<string>, Option<string>>)
    ensures Merged(runIds, statuses).Err? <==>
      exists i :: 0 <= i < |runIds| && Some(runIds[i].1) !in KeySet(statuses)
    ensures Merged(runIds, statuses).Err? ==>
      exists i :: (0 <= i < |runIds| && Some(runIds[i].1) !in KeySet(statuses) &&
        Merged(runIds, statuses).error == SuiteMissing(runIds[i].1) &&
        forall k :: 0 <= k < i ==> Some(runIds[k].1) in KeySet(statuses))
  {
    if runIds != [] {
      var n := |runIds| - 1;
      var pre := runIds[..n];
      MergedFails(pre, statuses);
      assert forall k :: 0 <= k < n ==> runIds[k] == pre[k];
      if Merged(pre, statuses).Err? {
        var i :| 0 <= i < |pre| && Some(pre[i].1) !in KeySet(statuses) &&
          Merged(pre, statuses).error == SuiteMissing(pre[i].1) &&
          forall k :: 0 <= k < i ==> Some(pre[k].1) in KeySet(statuses);
        assert runIds[i] == pre[i];
      } else {
        forall k | 0 <= k < n ensures Some(runIds[k].1) in KeySet(statuses) {
          assert Some(pre[k].1) in KeySet(statuses);
        }
      }
    }
  }

  /**
   * A merge that succeeds gives `runIdStatuses` exactly the keys of `testRunIds`, in the same order,
   * and each run's value is the status stored under its suite (which may be None).
   */
  lemma {:induction false} MergedContents(runIds: Dict<string, string>, statuses: Dict<Option<string>, Option<string>>)
    requires NoDupKeys(runIds) && Merged(runIds, statuses).Ok?
    ensures Keys(Merged(runIds, statuses).value) == Keys(runIds)
    ensures NoDupKeys(Merged(runIds, statuses).value)
    ensures forall i :: 0 <= i < |runIds| ==>
      Get(statuses, Some(runIds[i].1)) == Some(Merged(runIds, statuses).value[i].1)
  {
    if runIds != [] {
      var n := |runIds| - 1;
      var pre := runIds[..n];
      var p := runIds[n];
      assert NoDupKeys(pre);
      MergedContents(pre, statuses);
      var m := Merged(pre, statuses).value;
      var st := Get(statuses, Some(p.1)).value;
      MergedStep(runIds, m, st);
    } else {
      assert Keys(Merged(runIds, statuses).value) == [];
    }
  }

  /** One step of the merge: a fresh run id is appended with its status. */
  lemma MergedStep(runIds: Dict<string, string>, m: Dict<string, Option<string>>, st: Option<string>)
    requires |runIds| > 0 && NoDupKeys(runIds)
    requires Keys(m) == Keys(runIds[..|runIds| - 1]) && NoDupKeys(m)
    ensures Put(m, runIds[|runIds| - 1].0, st) == m + [(runIds[|runIds| - 1].0, st)]
    ensures Keys(m + [(runIds[|runIds| - 1].0, st)]) == Keys(runIds)
    ensures NoDupKeys(m + [(runIds[|runIds| - 1].0, st)])
  {
    var n := |runIds| - 1;
    var k0 := runIds[n].0;
    forall k | 0 <= k < |m| ensures m[k].0 != k0 {
      assert Keys(m)[k] == Keys(runIds[..n])[k];
    }
    var m' := m + [(k0, st)];
    forall k | 0 <= k < |m'| ensures Keys(m')[k] == Keys(runIds)[k] {
      if k < n { assert Keys(m)[k] == Keys(runIds[..n])[k]; }
    }
    forall a, b | 0 <= a < b < |m'| ensures m'[a].0 != m'[b].0 {
      assert Keys(m')[a] == Keys(runIds)[a] && Keys(m')[b] == Keys(runIds)[b];
    }
  }

  // ---------------------------------------------------------------- the "not found" reports

  /** `testSuiteNameWithTestSummary` of updateJiraEpicsFromXray.py: summary to suite name. */
  function SuiteBySummary(tests: seq<ExecTest>): Dict<string, Option<string>> {
    IndexBy(tests, Everything, SummaryOf, SuiteNameOf)
  }

  /** The keys (in dict order) whose suite is in the not-found list. */
  function KeysWithSuiteIn(d: Dict<string, Option<string>>, notFound: seq<Option<string>>): seq<string> {
    Collect(d, SuiteIn(notFound), KeyOf)
  }

  /**
   * What one page appends to `testSummariesNotFound` in updateJiraEpicsFromXray.py: the summary
   * of each test of the page whose suite name is on the (whole run's) not-found list.
   */
  method ReportBySummary(tests: seq<ExecTest>, notFound: seq<Option<string>>) returns (report: seq<string>)
    ensures report == KeysWithSuiteIn(SuiteBySummary(tests), notFound)
  {
    var bySummary: Dict<string, Option<string>> := [];
    for t := 0 to |tests|
      invariant bySummary == SuiteBySummary(tests[..t])
    {
      assert tests[..t + 1][..t] == tests[..t];
      bySummary := Put(bySummary, tests[t].summary, tests[t].suiteName);
    }
    assert tests[..|tests|] == tests;
    report := [];
    for i := 0 to |bySummary|
      invariant report == KeysWithSuiteIn(bySummary[..i], notFound)
    {
      assert bySummary[..i + 1][..i] == bySummary[..i];
      if bySummary[i].1 in notFound {
        report := report + [bySummary[i].0];
      }
    }
    assert bySummary[..|bySummary|] == bySummary;
  }

  /**
   * A summary is reported exactly when it is the summary of some test of the page and the suite
   * name of the last test with that summary is on the not-found list.
   */
  lemma ReportBySummaryMeaning(tests: seq<ExecTest>, notFound: seq<Option<string>>, summary: string)
    ensures summary in KeysWithSuiteIn(SuiteBySummary(tests), notFound) <==>
      exists j :: 0 <= j < |tests| && tests[j].summary == summary &&
        (forall m :: j < m < |tests| ==> tests[m].summary != summary) &&
        tests[j].suiteName in notFound
  {
    var d := SuiteBySummary(tests);
    IndexByKeys(tests, Everything, SummaryOf, SuiteNameOf);
    IndexByValues(tests, Everything, SummaryOf, SuiteNameOf);
    CollectMembers(d, SuiteIn(notFound), KeyOf, summary);
    if summary in KeysWithSuiteIn(d, notFound) {
      var i :| 0 <= i < |d| && SuiteIn(notFound)(d[i]) && KeyOf(d[i]) == summary;
      assert FromKept(tests, Everything, SummaryOf, SuiteNameOf, d[i]);
      var j0 :| 0 <= j0 < |tests| && d[i] == (tests[j0].summary, tests[j0].suiteName);
      var j := LastWith(tests, summary, j0);
      IndexByLast(tests, Everything, SummaryOf, SuiteNameOf, j);
      GetAt(d, i);
    }
    if exists j :: 0 <= j < |tests| && tests[j].summary == summary &&
        (forall m :: j < m < |tests| ==> tests[m].summary != summary) &&
        tests[j].suiteName in notFound {
      var j :| 0 <= j < |tests| && tests[j].summary == summary &&
        (forall m :: j < m < |tests| ==> tests[m].summary != summary) &&
        tests[j].suiteName in notFound;
      IndexByLast(tests, Everything, SummaryOf, SuiteNameOf, j);
      var i := IndexOf(d, summary);
      GetAt(d, i);
      assert SuiteIn(notFound)(d[i]) && KeyOf(d[i]) == summary;
    }
  }

  /** The last test at or after position j0 that has the given summary. */
  function LastWith(tests: seq<ExecTest>, summary: string, j0: nat): (j: nat)
    requires j0 < |tests| && tests[j0].summary == summary
    ensures j0 <= j < |tests| && tests[j].summary == summary
    ensures forall m :: j < m < |tests| ==> tests[m].summary != summary
    decreases |tests| - j0
  {
    if exists m :: j0 < m < |tests| && tests[m].summary == summary then
      var m :| j0 < m < |tests| && tests[m].summary == summary;
      LastWith(tests, summary, m)
    else j0
  }

  /** `testSuiteNameWithTestSummary` of UpdateXrayTestsWithLatestStatus.py: issue id to suite name. */
  function SuiteByIssue(tests: seq<ExecTest>): Dict<string, Option<string>> {
    IndexBy(tests, Everything, IssueIdOf, SuiteNameOf)
  }

  /** `testSuiteIssueIdWithTestSummary`: issue id to summary. */
  function SummaryByIssue(tests: seq<ExecTest>): Dict<string, string> {
    IndexBy(tests, Everything, IssueIdOf, SummaryOf)
  }

  /** The report line `summary + " - " + issueId` for one issue id. */
  function Label(summaries: Dict<string, string>, issueId: string): string {
    (match Get(summaries, issueId) case Some(s) => s case None => "") + " - " + issueId
  }

  function LabelOf(summaries: Dict<string, string>): ((string, Option<string>)) -> string {
    (p: (string, Option<string>)) => Label(summaries, p.0)
  }

  /** Both dicts of a page have the same keys, so the summary lookup of the report never fails. */
  lemma SameIssueKeys(tests: seq<ExecTest>)
    ensures Keys(SuiteByIssue(tests)) == Keys(SummaryByIssue(tests))
    ensures KeySet(SuiteByIssue(tests)) == KeySet(SummaryByIssue(tests))
  {
    IndexBySameKeys(tests, Everything, IssueIdOf, SuiteNameOf, SummaryOf);
    var a, b := SuiteByIssue(tests), SummaryByIssue(tests);
    forall k ensures k in KeySet(a) <==> k in KeySet(b) {
      if k in KeySet(a) {
        var i :| 0 <= i < |a| && a[i].0 == k;
        assert Keys(a)[i] == Keys(b)[i];
      }
      if k in KeySet(b) {
        var i :| 0 <= i < |b| && b[i].0 == k;
        assert Keys(a)[i] == Keys(b)[i];
      }
    }
  }

  /**
   * What one page appends to `testSummariesNotFound` in UpdateXrayTestsWithLatestStatus.py:
   * `summary - issueId` for each test of the page whose suite name is on the not-found list.
   */
  method ReportByIssue(tests: seq<ExecTest>, notFound: seq<Option<string>>) returns (report: seq<string>)
    ensures report == Collect(SuiteByIssue(tests), SuiteIn(notFound), LabelOf(SummaryByIssue(tests)))
  {
    var suiteByIssue: Dict<string, Option<string>> := [];
    var summaryByIssue: Dict<string, string> := [];
    for t := 0 to |tests|
      invariant suiteByIssue == SuiteByIssue(tests[..t])
      invariant summaryByIssue == SummaryByIssue(tests[..t])
    {
      assert tests[..t + 1][..t] == tests[..t];
      suiteByIssue := Put(suiteByIssue, tests[t].issueId, tests[t].suiteName);
      summaryByIssue := Put(summaryByIssue, tests[t].issueId, tests[t].summary);
    }
    assert tests[..|tests|] == tests;
    report := [];
    for i := 0 to |suiteByIssue|
      invariant report == Collect(suiteByIssue[..i], SuiteIn(notFound), LabelOf(summaryByIssue))
    {
      assert suiteByIssue[..i + 1][..i] == suiteByIssue[..i];
      if suiteByIssue[i].1 in notFound {
        report := report + [Label(summaryByIssue, suiteByIssue[i].0)];
      }
    }
    assert suiteByIssue[..|suiteByIssue|] == suiteByIssue;
  }

  /**
   * A line is reported exactly when it is `summary - issueId` for the last test of the page with
   * that issue id and that test's suite name is on the not-found list.
   */
  lemma ReportByIssueMeaning(tests: seq<ExecTest>, notFound: seq<Option<string>>, line: string)
    ensures line in Collect(SuiteByIssue(tests), SuiteIn(notFound), LabelOf(SummaryByIssue(tests))) <==>
      exists j :: 0 <= j < |tests| &&
        (forall m :: j < m < |tests| ==> tests[m].issueId != tests[j].issueId) &&
        tests[j].suiteName in notFound && line == tests[j].summary + " - " + tests[j].issueId
  {
    var d := SuiteByIssue(tests);
    var sums := SummaryByIssue(tests);
    IndexByKeys(tests, Everything, IssueIdOf, SuiteNameOf);
    IndexByValues(tests, Everything, IssueIdOf, SuiteNameOf);
    CollectMembers(d, SuiteIn(notFound), LabelOf(sums), line);
    if line in Collect(d, SuiteIn(notFound), LabelOf(sums)) {
      var i :| 0 <= i < |d| && SuiteIn(notFound)(d[i]) && LabelOf(sums)(d[i]) == line;
      assert FromKept(tests, Everything, IssueIdOf, SuiteNameOf, d[i]);
      var j0 :| 0 <= j0 < |tests| && d[i] == (tests[j0].issueId, tests[j0].suiteName);
      var j := LastIssue(tests, j0);
      IndexByLast(tests, Everything, IssueIdOf, SuiteNameOf, j);
      IndexByLast(tests, Everything, IssueIdOf, SummaryOf, j);
      GetAt(d, i);
    }
    if exists j :: 0 <= j < |tests| &&
        (forall m :: j < m < |tests| ==> tests[m].issueId != tests[j].issueId) &&
        tests[j].suiteName in notFound && line == tests[j].summary + " - " + tests[j].issueId {
      var j :| 0 <= j < |tests| &&
        (forall m :: j < m < |tests| ==> tests[m].issueId != tests[j].issueId) &&
        tests[j].suiteName in notFound && line == tests[j].summary + " - " + tests[j].issueId;
      IndexByLast(tests, Everything, IssueIdOf, SuiteNameOf, j);
      IndexByLast(tests, Everything, IssueIdOf, SummaryOf, j);
      var i := IndexOf(d, tests[j].issueId);
      GetAt(d, i);
      assert SuiteIn(notFound)(d[i]) && LabelOf(sums)(d[i]) == line;
    }
  }

  /** The last test at or after position j0 with the same issue id. */
  function LastIssue(tests: seq<ExecTest>, j0: nat): (j: nat)
    requires j0 < |tests|
    ensures j0 <= j < |tests| && tests[j].issueId == tests[j0].issueId
    ensures forall m :: j < m < |tests| ==> tests[m].issueId != tests[j].issueId
    decreases |tests| - j0
  {
    if exists m :: j0 < m < |tests| && tests[m].issueId == tests[j0].issueId then
      var m :| j0 < m < |tests| && tests[m].issueId == tests[j0].issueId;
      LastIssue(tests, m)
    else j0
  }
}
