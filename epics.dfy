/**
 * The epic summaries (the second half of updateJiraEpicsFromXray.py, and all of
 * UpdateEpicTestSummaries.py): for every epic of the release, page through the runs of its test
 * execution, bucket each run by its Xray status, and write the totals and the releasable
 * percentage back to the epic.
 */
module Epics {
  import opened Wrappers
  import opened Statuses
  import opened Paging
  import opened Dicts

  /** `totalTests`, `passedTests`, `executedTests`, `remainingTests`, `failedReleasableTests`. */
  datatype Counters = Counters(total: nat, passed: nat, executed: nat, remaining: nat, failedReleasable: nat)

  /** The counters as they are reset at the start of every epic. */
  const NoTests := Counters(0, 0, 0, 0, 0)

  /** The bucket inequalities: passed and failed-releasable runs are executed, and no run is both executed and remaining. */
  predicate Consistent(c: Counters) {
    c.passed + c.failedReleasable <= c.executed && c.executed + c.remaining <= c.total
  }

  /** The statuses that touch a bucket other than `totalTests`. */
  const Bucketed: set<string> := {Passed, ToDo, Executing, Failed, FailedReleasable, BlockRelease}

  /**
   * The body of the run loop: every run adds one to the total, then the first matching branch of
   * the `elif` chain (PASSED, TO DO, EXECUTING, FAILED, FAILED-RELEASEABLE, BLOCK-RELEASE) adds to
   * its buckets. A status outside the chain, BLOCKED for one, or a missing one, counts only in the total.
   */
  function Count(c: Counters, status: Option<string>): (c': Counters)
    ensures c'.total == c.total + 1
    ensures (status.None? || status.value !in Bucketed) ==> c' == c.(total := c.total + 1)
    ensures Consistent(c) ==> Consistent(c')
  {
    var c := c.(total := c.total + 1);
    if status == Some(Passed) then c.(passed := c.passed + 1, executed := c.executed + 1)
    else if status == Some(ToDo) then c.(remaining := c.remaining + 1)
    else if status == Some(Executing) then c.(remaining := c.remaining + 1)
    else if status == Some(Failed) then c.(executed := c.executed + 1)
    else if status == Some(FailedReleasable) then c.(executed := c.executed + 1, failedReleasable := c.failedReleasable + 1)
    else if status == Some(BlockRelease) then c.(executed := c.executed + 1)
    else c
  }

  /** The counters after the runs of one page, starting from c. */
  function CountAll(c: Counters, runs: seq<Option<string>>): Counters {
    if runs == [] then c else Count(CountAll(c, runs[..|runs| - 1]), runs[|runs| - 1])
  }

  /** The run loop of a page, updating the five counters one run at a time. */
  method CountRuns(c: Counters, runs: seq<Option<string>>) returns (c': Counters)
    ensures c' == CountAll(c, runs)
  {
    var totalTests, passedTests, executedTests, remainingTests, failedReleasableTests :=
      c.total, c.passed, c.executed, c.remaining, c.failedReleasable;
    for i := 0 to |runs|
      invariant Counters(totalTests, passedTests, executedTests, remainingTests, failedReleasableTests) == CountAll(c, runs[..i])
    {
      assert runs[..i + 1][..i] == runs[..i];
      var xrayTestStatus := runs[i];
      totalTests := totalTests + 1;
      if xrayTestStatus == Some(Passed) {
        passedTests := passedTests + 1;
        executedTests := executedTests + 1;
      } else if xrayTestStatus == Some(ToDo) {
        remainingTests := remainingTests + 1;
      } else if xrayTestStatus == Some(Executing) {
        remainingTests := remainingTests + 1;
      } else if xrayTestStatus == Some(Failed) {
        executedTests := executedTests + 1;
      } else if xrayTestStatus == Some(FailedReleasable) {
        executedTests := executedTests + 1;
        failedReleasableTests := failedReleasableTests + 1;
      } else if xrayTestStatus == Some(BlockRelease) {
        executedTests := executedTests + 1;
      }
    }
    assert runs[..|runs|] == runs;
    c' := Counters(totalTests, passedTests, executedTests, remainingTests, failedReleasableTests);
  }

  /** How many runs carry the given status. */
  function Occurrences(runs: seq<Option<string>>, status: string): nat {
    if runs == [] then 0
    else Occurrences(runs[..|runs| - 1], status) + (if runs[|runs| - 1] == Some(status) then 1 else 0)
  }

  /**
   * The counters as occurrence counts: the total grows by the number of runs, passed by the PASSED
   * runs, executed by the PASSED, FAILED, FAILED-RELEASEABLE and BLOCK-RELEASE runs, remaining by
   * the TO DO and EXECUTING runs, and failed-releasable by the FAILED-RELEASEABLE runs.
   */
  lemma {:induction false} CountAllByStatus(c: Counters, runs: seq<Option<string>>)
    ensures CountAll(c, runs) == Counters(
      c.total + |runs|,
      c.passed + Occurrences(runs, Passed),
      c.executed + Occurrences(runs, Passed) + Occurrences(runs, Failed)
        + Occurrences(runs, FailedReleasable) + Occurrences(runs, BlockRelease),
      c.remaining + Occurrences(runs, ToDo) + Occurrences(runs, Executing),
      c.failedReleasable + Occurrences(runs, FailedReleasable))
  {
    if runs != [] {
      CountAllByStatus(c, runs[..|runs| - 1]);
    }
  }

  /** The bucket inequalities hold after any runs, once they hold before. */
  lemma {:induction false} CountAllConsistent(c: Counters, runs: seq<Option<string>>)
    requires Consistent(c)
    ensures Consistent(CountAll(c, runs))
  {
    if runs != [] {
      CountAllConsistent(c, runs[..|runs| - 1]);
    }
  }

  /** Counting two pages one after the other is counting their runs together. */
  lemma {:induction false} CountAllAppend(c: Counters, a: seq<Option<string>>, b: seq<Option<string>>)
    ensures CountAll(CountAll(c, a), b) == CountAll(c, a + b)
    decreases |b|
  {
    if b == [] {
      assert a + b == a;
    } else {
      assert (a + b)[..|a + b| - 1] == a + b[..|b| - 1];
      CountAllAppend(c, a, b[..|b| - 1]);
    }
  }

  /** `releasablePercent`: 0 for an epic without runs, else 100 * (failedReleasable + passed) / total. */
  function ReleasablePercent(c: Counters): (p: real)
    ensures c.total == 0 ==> p == 0.0
    ensures Consistent(c) ==> 0.0 <= p <= 100.0
    ensures c.total != 0 && c.passed + c.failedReleasable == c.total ==> p == 100.0
    ensures c.total != 0 && c.passed + c.failedReleasable == 0 ==> p == 0.0
  {
    if c.total != 0 then
      var share := (c.failedReleasable + c.passed) as real / c.total as real;
      assert share * c.total as real == (c.failedReleasable + c.passed) as real;
      assert c.passed + c.failedReleasable <= c.total ==> share <= 1.0;
      share * 100.0
    else 0.0
  }

  /** One PASSED, one FAILED, one TO DO and one FAILED-RELEASEABLE run: half of them releasable. */
  lemma FourRunScenario()
    ensures CountAll(NoTests, [Some(Passed), Some(Failed), Some(ToDo), Some(FailedReleasable)]) == Counters(4, 1, 3, 1, 1)
    ensures ReleasablePercent(Counters(4, 1, 3, 1, 1)) == 50.0
  {
    var runs := [Some(Passed), Some(Failed), Some(ToDo), Some(FailedReleasable)];
    assert runs[..3] == [Some(Passed), Some(Failed), Some(ToDo)];
    assert runs[..3][..2] == [Some(Passed), Some(Failed)];
    assert runs[..3][..2][..1] == [Some(Passed)];
    assert CountAll(NoTests, [Some(Passed)]) == Counters(1, 1, 1, 0, 0);
    assert CountAll(NoTests, runs[..3][..2]) == Counters(2, 1, 2, 0, 0);
    assert CountAll(NoTests, runs[..3]) == Counters(3, 1, 2, 1, 0);
  }

  // ---------------------------------------------------------------- the page loop of one epic

  /**
   * One response of the page loop: the execution request failed, it returned no execution, or it
   * returned the execution's reported test total and then the runs request's answer.
   */
  datatype EpicResponse =
    | ExecutionFetchFailed
    | NoExecution
    | Execution(total: int, runs: Fetch<seq<Option<string>>>)

  /**
   * How the page loop of an epic ended: whether the last page had an execution (the test of
   * `len(testExecution) != 0` after the loop), the counters, and the number of pages fetched.
   */
  datatype EpicTally = EpicTally(found: bool, counters: Counters, pagesFetched: nat)

  /**
   * The page loop from page i (offset 100 * i) with counters c. A failed request exits the script; a
   * page without an execution ends the loop; otherwise the runs are counted and the loop ends once
   * the next offset reaches the reported total.
   */
  function TallyEpic(pages: seq<EpicResponse>, i: nat, c: Counters): Result<EpicTally>
    decreases |pages| - i
  {
    if i >= |pages| then Err(ResponsesExhausted)
    else
      match pages[i]
      case ExecutionFetchFailed => Err(Aborted)
      case NoExecution => Ok(EpicTally(false, c, i + 1))
      case Execution(total, runs) =>
        match runs
        case FetchFailed => Err(Aborted)
        case Fetched(rs) =>
          if 100 * (i + 1) >= total then Ok(EpicTally(true, CountAll(c, rs), i + 1))
          else TallyEpic(pages, i + 1, CountAll(c, rs))
  }

  /** The `while True` loop of one epic, from freshly reset counters. */
  method TallyEpicPages(pages: seq<EpicResponse>) returns (r: Result<EpicTally>)
    ensures r == TallyEpic(pages, 0, NoTests)
  {
    var testsCounted := 0;
    var i := 0;
    var c := NoTests;
    while i < |pages|
      invariant i <= |pages| && testsCounted == 100 * i
      invariant TallyEpic(pages, i, c) == TallyEpic(pages, 0, NoTests)
      decreases |pages| - i
    {
      var response := pages[i];
      if response.ExecutionFetchFailed? {
        return Err(Aborted);
      }
      if response.NoExecution? {
        return Ok(EpicTally(false, c, i + 1));
      }
      if response.runs.FetchFailed? {
        return Err(Aborted);
      }
      c := CountRuns(c, response.runs.value);
      testsCounted := testsCounted + 100;
      i := i + 1;
      if testsCounted >= response.total {
        return Ok(EpicTally(true, c, i));
      }
    }
    return Err(ResponsesExhausted);
  }

  /** The run statuses one response delivers. */
  function PageRuns(page: EpicResponse): seq<Option<string>> {
    if page.Execution? && page.runs.Fetched? then page.runs.value else []
  }

  /** The runs a sequence of responses delivers, page after page. */
  function RunsOf(pages: seq<EpicResponse>): seq<Option<string>> {
    if pages == [] then [] else RunsOf(pages[..|pages| - 1]) + PageRuns(pages[|pages| - 1])
  }

  /**
   * A finished loop from page i fetched pages i to pagesFetched - 1; every page before the last had
   * an execution whose total exceeded the next offset; the epic counts as found exactly when the
   * last page had an execution, and then the next offset reached its total; the counters are those
   * of all the runs delivered, added to c.
   */
  lemma TallyEpicShape(pages: seq<EpicResponse>, i: nat, c: Counters)
    requires TallyEpic(pages, i, c).Ok?
    ensures var t := TallyEpic(pages, i, c).value;
      i < t.pagesFetched <= |pages| &&
      (forall j :: i <= j < t.pagesFetched - 1 ==> pages[j].Execution? && 100 * (j + 1) < pages[j].total) &&
      (t.found <==> pages[t.pagesFetched - 1].Execution?) &&
      (t.found ==> 100 * t.pagesFetched >= pages[t.pagesFetched - 1].total) &&
      t.counters == CountAll(c, RunsOf(pages[i..t.pagesFetched]))
  {
    TallyEpicStops(pages, i, c);
    TallyEpicCounts(pages, i, c);
  }

  /** Where the loop stops: the pages it went past, and what decided the last one. */
  lemma {:induction false} TallyEpicStops(pages: seq<EpicResponse>, i: nat, c: Counters)
    requires TallyEpic(pages, i, c).Ok?
    ensures var t := TallyEpic(pages, i, c).value;
      i < t.pagesFetched <= |pages| &&
      (forall j :: i <= j < t.pagesFetched - 1 ==> pages[j].Execution? && 100 * (j + 1) < pages[j].total) &&
      (t.found <==> pages[t.pagesFetched - 1].Execution?) &&
      (t.found ==> 100 * t.pagesFetched >= pages[t.pagesFetched - 1].total)
    decreases |pages| - i
  {
    if pages[i].Execution? && 100 * (i + 1) < pages[i].total {
      var c' := CountAll(c, pages[i].runs.value);
      assert TallyEpic(pages, i, c) == TallyEpic(pages, i + 1, c');
      TallyEpicStops(pages, i + 1, c');
    }
  }

  /** The counters at the end are those of every run the fetched pages delivered. */
  lemma {:induction false} TallyEpicCounts(pages: seq<EpicResponse>, i: nat, c: Counters)
    requires TallyEpic(pages, i, c).Ok?
    ensures var t := TallyEpic(pages, i, c).value;
      i < t.pagesFetched <= |pages| && t.counters == CountAll(c, RunsOf(pages[i..t.pagesFetched]))
    decreases |pages| - i
  {
    var t := TallyEpic(pages, i, c).value;
    assert pages[i..i + 1] == [pages[i]];
    assert [pages[i]][..0] == [];
    assert RunsOf(pages[i..i + 1]) == PageRuns(pages[i]);
    if pages[i].Execution? && 100 * (i + 1) < pages[i].total {
      var rs := pages[i].runs.value;
      assert TallyEpic(pages, i, c) == TallyEpic(pages, i + 1, CountAll(c, rs));
      TallyEpicCounts(pages, i + 1, CountAll(c, rs));
      RunsOfAppend(pages, i, i + 1, t.pagesFetched);
      CountAllAppend(c, rs, RunsOf(pages[i + 1..t.pagesFetched]));
    }
  }

  /** RunsOf distributes over concatenation. */
  lemma {:induction false} RunsOfConcat(a: seq<EpicResponse>, b: seq<EpicResponse>)
    ensures RunsOf(a + b) == RunsOf(a) + RunsOf(b)
    decreases |b|
  {
    if b == [] {
      assert a + b == a;
    } else {
      var b' := b[..|b| - 1];
      var last := b[|b| - 1];
      assert (a + b)[..|a + b| - 1] == a + b';
      assert (a + b)[|a + b| - 1] == last;
      RunsOfConcat(a, b');
    }
  }

  /** RunsOf distributes over consecutive slices. */
  lemma RunsOfAppend(pages: seq<EpicResponse>, i: nat, j: nat, k: nat)
    requires i <= j <= k <= |pages|
    ensures RunsOf(pages[i..k]) == RunsOf(pages[i..j]) + RunsOf(pages[j..k])
  {
    assert pages[i..k] == pages[i..j] + pages[j..k];
    RunsOfConcat(pages[i..j], pages[j..k]);
  }

  /**
   * When every response is an execution reporting the same total T with its runs, the loop fetches
   * exactly PagesFor(T) pages, finds the epic, and counts every run of those pages.
   */
  lemma {:induction false} TallyEpicUniform(pages: seq<EpicResponse>, total: int, i: nat, c: Counters)
    requires forall j :: 0 <= j < |pages| ==> pages[j].Execution? && pages[j].total == total && pages[j].runs.Fetched?
    requires i < PagesFor(total) <= |pages|
    ensures TallyEpic(pages, i, c) == Ok(EpicTally(true, CountAll(c, RunsOf(pages[i..PagesFor(total)])), PagesFor(total)))
    decreases PagesFor(total) - i
  {
    var n := PagesFor(total);
    var rs := pages[i].runs.value;
    assert pages[i..i + 1] == [pages[i]];
    assert pages[i..i + 1][..0] == [];
    assert RunsOf(pages[i..i + 1]) == rs;
    if i + 1 < n {
      assert 100 * (i + 1) < total;
      TallyEpicUniform(pages, total, i + 1, CountAll(c, rs));
      RunsOfAppend(pages, i, i + 1, n);
      CountAllAppend(c, rs, RunsOf(pages[i + 1..n]));
    }
  }

  // ---------------------------------------------------------------- all epics of the release

  /** An epic of the release: its key and the responses its page loop receives. */
  datatype Epic = Epic(key: string, pages: seq<EpicResponse>)

  /** The fields written to the epic: total, passed, executed and remaining tests, and the percentage. */
  datatype EpicWrite = EpicWrite(key: string, total: nat, passed: nat, executed: nat, remaining: nat, percent: real)

  /** `epicsUpdated` and the writes made, in epic order. */
  datatype EpicsReport = EpicsReport(epicsUpdated: nat, writes: seq<EpicWrite>)

  function WriteFor(key: string, c: Counters): EpicWrite {
    EpicWrite(key, c.total, c.passed, c.executed, c.remaining, ReleasablePercent(c))
  }

  /**
   * The epic loop: each epic's page loop starts from reset counters; an epic found on the last
   * page is written and counted in `epicsUpdated`, any other is skipped. A failed write is only logged.
   */
  function EpicsRun(epics: seq<Epic>): Result<EpicsReport> {
    if epics == [] then Ok(EpicsReport(0, []))
    else
      match EpicsRun(epics[..|epics| - 1])
      case Err(e) => Err(e)
      case Ok(rep) =>
        var epic := epics[|epics| - 1];
        match TallyEpic(epic.pages, 0, NoTests)
        case Err(e) => Err(e)
        case Ok(t) =>
          if t.found then Ok(EpicsReport(rep.epicsUpdated + 1, rep.writes + [WriteFor(epic.key, t.counters)]))
          else Ok(rep)
  }

  /** The loop over the epics of the release. */
  method UpdateEpics(epics: seq<Epic>) returns (r: Result<EpicsReport>)
    ensures r == EpicsRun(epics)
  {
    var epicsUpdated := 0;
    var writes: seq<EpicWrite> := [];
    for epicIteration := 0 to |epics|
      invariant EpicsRun(epics[..epicIteration]) == Ok(EpicsReport(epicsUpdated, writes))
    {
      assert epics[..epicIteration + 1][..epicIteration] == epics[..epicIteration];
      var tally := TallyEpicPages(epics[epicIteration].pages);
      if tally.Err? {
        EpicsRunErrSticks(epics, epicIteration + 1);
        return Err(tally.error);
      }
      if tally.value.found {
        epicsUpdated := epicsUpdated + 1;
        writes := writes + [WriteFor(epics[epicIteration].key, tally.value.counters)];
      }
    }
    assert epics[..|epics|] == epics;
    r := Ok(EpicsReport(epicsUpdated, writes));
  }

  /** Once an epic's loop has exited the script, so has the whole run. */
  lemma {:induction false} EpicsRunErrSticks(epics: seq<Epic>, i: nat)
    requires i <= |epics| && EpicsRun(epics[..i]).Err?
    ensures EpicsRun(epics) == EpicsRun(epics[..i])
    decreases |epics| - i
  {
    if i < |epics| {
      assert epics[..i + 1][..i] == epics[..i];
      EpicsRunErrSticks(epics, i + 1);
    } else {
      assert epics[..i] == epics;
    }
  }

  /**
   * `epicsUpdated` is the number of writes; every write keeps the bucket inequalities and a
   * percentage in [0, 100]; and each write belongs to an epic whose last page had an execution.
   */
  lemma {:induction false} EpicsRunMeaning(epics: seq<Epic>)
    requires EpicsRun(epics).Ok?
    ensures EpicsRun(epics).value.epicsUpdated == |EpicsRun(epics).value.writes| <= |epics|
    ensures forall w :: w in EpicsRun(epics).value.writes ==>
      w.passed <= w.executed && w.executed + w.remaining <= w.total && 0.0 <= w.percent <= 100.0
    ensures forall w :: w in EpicsRun(epics).value.writes ==>
      exists e :: e in epics && e.key == w.key && TallyEpic(e.pages, 0, NoTests).Ok? && TallyEpic(e.pages, 0, NoTests).value.found
  {
    if epics != [] {
      var pre := epics[..|epics| - 1];
      var epic := epics[|epics| - 1];
      EpicsRunMeaning(pre);
      var t := TallyEpic(epic.pages, 0, NoTests).value;
      TallyEpicShape(epic.pages, 0, NoTests);
      CountAllConsistent(NoTests, RunsOf(epic.pages[0..t.pagesFetched]));
      assert forall e :: e in pre ==> e in epics;
    }
  }

  /** An epic that the loop writes: its page loop went through and its last page had an execution. */
  predicate Found(e: Epic) {
    TallyEpic(e.pages, 0, NoTests).Ok? && TallyEpic(e.pages, 0, NoTests).value.found
  }

  /** The write an epic's page loop leads to (the reset counters when the loop did not go through). */
  function FoundWrite(e: Epic): EpicWrite {
    match TallyEpic(e.pages, 0, NoTests)
    case Ok(t) => WriteFor(e.key, t.counters)
    case Err(_) => WriteFor(e.key, NoTests)
  }

  /**
   * The run goes through exactly when every epic's page loop does; then the writes are exactly
   * those of the found epics, one each, in epic order, and `epicsUpdated` is the number of found epics.
   */
  lemma {:induction false} EpicsRunWrites(epics: seq<Epic>)
    ensures EpicsRun(epics).Ok? <==> forall i :: 0 <= i < |epics| ==> TallyEpic(epics[i].pages, 0, NoTests).Ok?
    ensures EpicsRun(epics).Ok? ==> EpicsRun(epics).value.writes == Collect(epics, Found, FoundWrite)
    ensures EpicsRun(epics).Ok? ==> EpicsRun(epics).value.epicsUpdated == CountKept(epics, Found)
  {
    if epics != [] {
      var pre := epics[..|epics| - 1];
      EpicsRunWrites(pre);
      assert forall i :: 0 <= i < |pre| ==> pre[i] == epics[i];
    }
  }
}
