/** The status vocabularies of Nextworld and Xray, and the translation between them. */
module Statuses {
  import opened Wrappers

  // Xray test-run statuses.
  const ToDo := "TO DO"
  const Executing := "EXECUTING"
  const Passed := "PASSED"
  const Failed := "FAILED"
  const Blocked := "BLOCKED"
  const FailedReleasable := "FAILED-RELEASEABLE"
  const BlockRelease := "BLOCK-RELEASE"

  /** The translation as a table: each Nextworld result status with an Xray counterpart. */
  const Translation: map<string, string> := map[
    "Initialized" := ToDo,
    "Running" := Executing,
    "Success" := Passed,
    "Failure" := Failed,
    "Skipped" := Blocked,
    "FailedSystemErrors" := FailedReleasable,
    "Failed to Run" := Failed
  ]

  /** The Xray statuses a translation can produce. */
  const XrayTargets: set<string> := {ToDo, Executing, Passed, Failed, Blocked, FailedReleasable}

  /**
   * The Xray status for a Nextworld `TestResultStatus` (None when the key is absent or null).
   * Written as the scripts write it: a run of independent `if`s, each of which may overwrite
   * the status chosen so far.
   */
  function XrayStatus(nextworld: Option<string>): (r: Option<string>)
    ensures nextworld.Some? && nextworld.value in Translation ==> r == Some(Translation[nextworld.value])
    ensures nextworld.None? || nextworld.value !in Translation ==> r == None
    ensures r.Some? ==> r.value in XrayTargets
  {
    var st: Option<string> := None;
    var st := if nextworld == Some("Initialized") then Some(ToDo) else st;
    var st := if nextworld == Some("Running") then Some(Executing) else st;
    var st := if nextworld == Some("Success") then Some(Passed) else st;
    var st := if nextworld == Some("Failure") then Some(Failed) else st;
    var st := if nextworld == Some("Skipped") then Some(Blocked) else st;
    var st := if nextworld == Some("FailedSystemErrors") then Some(FailedReleasable) else st;
    var st := if nextworld == Some("Failed to Run") then Some(Failed) else st;
    st
  }

  /** A result counts as "not found" exactly when its status is absent; an unknown string does not. */
  predicate ReportsNotFound(nextworld: Option<string>) {
    nextworld.None?
  }

  /** Nothing Nextworld reports ever becomes BLOCK-RELEASE: no Nextworld status translates to it. */
  lemma NeverBlockRelease(nextworld: Option<string>)
    ensures XrayStatus(nextworld) != Some(BlockRelease)
  {
  }
}
