/**
 * The offset arithmetic every Xray page loop shares: the loop asks for 100 tests at a time
 * starting at `testsCounted`, adds 100 after each page and stops at the first offset that is
 * at least the total the server reported.
 */
module Paging {
  /** Xray returns at most this many tests per request; written out as 100 below. */
  const PageSize: nat := 100

  /** The number of pages a loop fetches for a reported total: max(1, ceil(total / 100)). */
  function PagesFor(total: int): (n: nat)
    ensures n >= 1
    ensures 100 * n >= total
    ensures n == 1 || 100 * (n - 1) < total
  {
    if total <= 100 then 1 else (total + 99) / 100
  }

  /** PagesFor is the first page count at which the loop stops, and no other count is. */
  lemma PagesForUnique(total: int, n: nat)
    requires n >= 1 && 100 * n >= total
    requires forall k :: 1 <= k < n ==> 100 * k < total
    ensures n == PagesFor(total)
  {
    var m := PagesFor(total);
    assert m == 1 || 100 * (m - 1) < total;
    assert m < n ==> 100 * m < total;
  }

  /** Page i (offset 100 * i) of a loop over PagesFor(total) pages is the last one exactly when the next offset reaches the total. */
  lemma LastPage(total: int, i: nat)
    requires i < PagesFor(total)
    ensures i + 1 == PagesFor(total) <==> 100 * (i + 1) >= total
  {
    var n := PagesFor(total);
    assert n == 1 || 100 * (n - 1) < total;
    assert i + 1 < n ==> 100 * (i + 1) <= 100 * (n - 1);
  }

  /** The offsets requested in a run of pages i, ..., k - 1 without retries: 100 * i, ..., 100 * (k - 1). */
  function Offsets(i: nat, k: nat): (offs: seq<nat>)
    ensures |offs| == if i <= k then k - i else 0
    ensures forall j :: 0 <= j < |offs| ==> offs[j] == 100 * (i + j)
    decreases k - i
  {
    if i < k then [100 * i] + Offsets(i + 1, k) else []
  }

  /** Requesting offset 100 * i and then the offsets of pages i + 1, ..., k - 1 requests those of pages i, ..., k - 1. */
  lemma OffsetsAfter(before: seq<nat>, i: nat, k: nat)
    requires i < k
    ensures (before + [100 * i]) + Offsets(i + 1, k) == before + Offsets(i, k)
  {
    assert Offsets(i, k) == [100 * i] + Offsets(i + 1, k);
  }

  /**
   * The offsets a loop with retries requests: it starts at page `first`, ends at page `last`, and
   * from one request to the next either stays on its page (a retry) or moves to the next one.
   */
  predicate Climbs(offs: seq<nat>, first: nat, last: nat) {
    |offs| > 0 && offs[0] == 100 * first && offs[|offs| - 1] == 100 * last &&
    forall k :: 0 <= k < |offs| - 1 ==> offs[k + 1] == offs[k] || offs[k + 1] == offs[k] + 100
  }

  /** The requests `after` are those of `before` followed by a climb from page `first` to page `last`. */
  predicate ClimbsAfter(before: seq<nat>, after: seq<nat>, first: nat, last: nat) {
    |before| < |after| && after[..|before|] == before && Climbs(after[|before|..], first, last)
  }

  /** Requesting page p and then climbing from page p (again) or p + 1 is climbing from page p. */
  lemma ClimbsBack(before: seq<nat>, after: seq<nat>, p: nat, p': nat, last: nat)
    requires p' == p || p' == p + 1
    requires ClimbsAfter(before + [100 * p], after, p', last)
    ensures ClimbsAfter(before, after, p, last)
  {
    var mid := before + [100 * p];
    assert after[..|before|] == after[..|mid|][..|before|];
    var rest := after[|before|..];
    assert rest[0] == after[..|mid|][|before|] == 100 * p;
    forall k | 0 <= k < |rest| - 1 ensures rest[k + 1] == rest[k] || rest[k + 1] == rest[k] + 100 {
      if k > 0 {
        assert rest[k] == after[|mid|..][k - 1];
        assert rest[k + 1] == after[|mid|..][k];
      } else {
        assert rest[1] == after[|mid|..][0];
      }
    }
  }

  /** The request of a single last page p climbs from p to p. */
  lemma ClimbsOne(before: seq<nat>, p: nat)
    ensures ClimbsAfter(before, before + [100 * p], p, p)
  {
    assert (before + [100 * p])[|before|..] == [100 * p];
  }

  /**
   * The token-refresh test of UpdateXrayTestsWithLatestStatus.py, made after a page that did not
   * end the loop: `loopCount % 5 == 0 and loopCount != 0`.
   */
  predicate RefreshDue(loopCount: nat) {
    loopCount % 5 == 0 && loopCount != 0
  }

  /** The refreshes made after the first m non-final pages, whose `loopCount` values are 0, ..., m - 1. */
  function RefreshesAfter(m: nat): nat {
    if m == 0 then 0 else RefreshesAfter(m - 1) + (if RefreshDue(m - 1) then 1 else 0)
  }

  lemma {:induction false} RefreshesAfterMonotone(a: nat, b: nat)
    requires a <= b
    ensures RefreshesAfter(a) <= RefreshesAfter(b)
    decreases b - a
  {
    if a < b { RefreshesAfterMonotone(a, b - 1); }
  }

  /** Refreshing (when due) after page p and then after pages p + 1, ..., last - 1 is refreshing after pages p, ..., last - 1. */
  lemma RefreshesStep(before: nat, after: nat, p: nat, last: nat)
    requires p + 1 <= last
    requires after == before + (if RefreshDue(p) then 1 else 0) + RefreshesAfter(last) - RefreshesAfter(p + 1)
    ensures after == before + RefreshesAfter(last) - RefreshesAfter(p)
  {
    RefreshesAfterMonotone(p + 1, last);
  }

  /** One refresh for every positive multiple of 5 below m: none after the first five pages, then one per five more. */
  lemma {:induction false} RefreshesAfterCount(m: nat)
    ensures RefreshesAfter(m) == if m == 0 then 0 else (m - 1) / 5
  {
    if m > 1 {
      RefreshesAfterCount(m - 1);
      assert RefreshDue(m - 1) <==> (m - 1) % 5 == 0;
    }
  }
}
