/** Writing statuses back to Xray: batches of at most 25 updates, each one GraphQL mutation of aliased calls. */
module Batching {
  import opened Wrappers
  import opened Dicts
  import opened Decimal
  import opened Statuses

  /** The endpoint accepts at most this many updates per call. */
  const WriteBatchSize: nat := 25  // written out as 25 below, which keeps the arithmetic linear

  function Min(a: int, b: int): int { if a <= b then a else b }

  // ---------------------------------------------------------------- the mutation text

  /** How an f-string renders an optional status: `None` prints as the word None. */
  function StatusText(status: Option<string>): (text: string)
    ensures status.Some? ==> text == status.value
    ensures status.None? ==> text == "None"
  {
    if status.Some? then status.value else "None"
  }

  /**
   * The status text written for a Nextworld result is an Xray status exactly when the result's
   * status was recognised; otherwise the word None is written.
   */
  lemma StatusTextOfTranslation(nextworld: Option<string>)
    ensures StatusText(XrayStatus(nextworld)) in XrayTargets <==> XrayStatus(nextworld).Some?
    ensures XrayStatus(nextworld).None? ==> StatusText(XrayStatus(nextworld)) == "None"
  {
    assert "None" !in XrayTargets by {
      assert "None"[0] == 'N';
      assert ToDo[0] == 'T' && Executing[0] == 'E' && Passed[0] == 'P' && Failed[0] == 'F' && Blocked[0] == 'B' && FailedReleasable[0] == 'F';
    }
  }

  function AliasLabel(k: nat): string {
    "Alias" + NatToString(k)
  }

  /** One aliased call: `AliasK: updateTestRunStatus(id: "...", status: "...")`. */
  function AliasEntry(k: nat, runId: string, status: Option<string>): string {
    AliasLabel(k) + ": " + "updateTestRunStatus(id: \"" + runId + "\", status: \"" + StatusText(status) + "\")"
  }

  /** The calls of a mutation: the pair at position i is aliased i + 1. */
  function Entries(d: Dict<string, Option<string>>): (es: seq<string>)
    ensures |es| == |d|
  {
    seq(|d|, i requires 0 <= i < |d| => AliasEntry(i + 1, d[i].0, d[i].1))
  }

  /** Strings joined with nothing between them. */
  function Concat(ss: seq<string>): string {
    if ss == [] then "" else Concat(ss[..|ss| - 1]) + ss[|ss| - 1]
  }

  /** The request body of one write: the aliased calls inside `mutation { ... }`. */
  function MutationQuery(calls: string): (q: string)
    ensures |q| == |calls| + 11
    ensures q[..10] == "mutation {" && q[|q| - 1] == '}'
    ensures q[10..|q| - 1] == calls
  {
    "mutation {" + calls + "}"
  }

  /**
   * The loop building `updateTestRunData`: a counter starting at 0 is bumped before each pair and
   * names its alias, and each call is appended to the text.
   */
  method BuildMutation(d: Dict<string, Option<string>>) returns (text: string)
    ensures text == Concat(Entries(d))
  {
    text := "";
    var aliasIncrement: nat := 0;
    for i := 0 to |d|
      invariant aliasIncrement == i
      invariant text == Concat(Entries(d[..i]))
    {
      assert Entries(d[..i + 1])[..i] == Entries(d[..i]);
      aliasIncrement := aliasIncrement + 1;
      text := text + AliasEntry(aliasIncrement, d[i].0, d[i].1);
    }
    assert d[..|d|] == d;
  }

  /** Different positions get different aliases, as GraphQL requires of the calls of one mutation. */
  lemma AliasLabelsDistinct(k: nat, k': nat)
    requires k != k'
    ensures AliasLabel(k) != AliasLabel(k')
  {
    if AliasLabel(k) == AliasLabel(k') {
      assert AliasLabel(k)[5..] == NatToString(k);
      assert AliasLabel(k')[5..] == NatToString(k');
      NatToStringInjective(k, k');
    }
  }

  /** The text of a concatenation is the text of the parts, so every call appears in the mutation. */
  lemma {:induction false} ConcatAppend(a: seq<string>, b: seq<string>)
    ensures Concat(a + b) == Concat(a) + Concat(b)
  {
    if b == [] {
      assert a + b == a;
    } else {
      var b' := b[..|b| - 1];
      var last := b[|b| - 1];
      assert (a + b)[..|a + b| - 1] == a + b';
      assert (a + b)[|a + b| - 1] == last;
      assert Concat(a + b) == Concat(a + b') + last;
      assert Concat(b) == Concat(b') + last;
      ConcatAppend(a, b');
    }
  }

  // ---------------------------------------------------------------- chunk_dict

  /** The pairs of a list of dicts, one dict after the other. */
  function Flatten<K, V>(batches: seq<Dict<K, V>>): Dict<K, V> {
    if batches == [] then [] else Flatten(batches[..|batches| - 1]) + batches[|batches| - 1]
  }

  /** The batches of d: batch b holds the pairs at positions 25b up to 25(b+1), ceil(|d|/25) of them. */
  function Chunks<K, V>(d: Dict<K, V>): (bs: seq<Dict<K, V>>)
    ensures |bs| == (|d| + 24) / 25
    ensures forall b :: 0 <= b < |bs| ==> 25 * b < |d| && bs[b] == d[25 * b .. Min(25 * (b + 1), |d|)]
  {
    seq((|d| + 24) / 25, (b: int) requires 0 <= b < (|d| + 24) / 25 => d[25 * b .. Min(25 * (b + 1), |d|)])
  }

  /**
   * `chunk_dict(d, 25)`: `range(0, len(d), 25)` decides how many batches there are, and each takes
   * the next 25 keys from one iterator shared by all batches (`islice`), so the last may be shorter.
   * Since the keys of a dict are distinct, `{k: d[k] for k in ...}` is the slice of pairs itself.
   */
  method ChunkDict<K, V>(d: Dict<K, V>) returns (batches: seq<Dict<K, V>>)
    ensures batches == Chunks(d)
  {
    batches := [];
    var pos := 0;   // how far the shared iterator has advanced
    var n := 0;     // the value range(0, len(d), 25) has reached
    while n < |d|
      invariant n == 25 * |batches|
      invariant pos == Min(n, |d|)
      invariant |batches| == 0 || 25 * (|batches| - 1) < |d|
      invariant forall b :: 0 <= b < |batches| ==> batches[b] == d[25 * b .. Min(25 * (b + 1), |d|)]
      decreases |d| - n
    {
      var take := Min(25, |d| - pos);
      batches := batches + [d[pos .. pos + take]];
      pos := pos + take;
      n := n + 25;
    }
  }

  /**
   * What the batches promise: together, in order, they are d; none is empty; none exceeds 25;
   * all but the last are full; an empty dict gives no batch.
   */
  lemma ChunksPartition<K, V>(d: Dict<K, V>)
    ensures Flatten(Chunks(d)) == d
    ensures forall b :: 0 <= b < |Chunks(d)| ==> 0 < |Chunks(d)[b]| <= 25
    ensures forall b :: 0 <= b < |Chunks(d)| - 1 ==> |Chunks(d)[b]| == 25
    ensures Chunks(d) == [] <==> d == []
  {
    var batches := Chunks(d);
    var q := |batches|;
    assert 25 * (q - 1) < |d| <= 25 * q;
    FlattenPrefix(d, q);
    assert batches[..q] == batches;
    assert Min(25 * q, |d|) == |d|;
    assert d[..|d|] == d;
    forall b | 0 <= b < q ensures 0 < |batches[b]| <= 25 && (b < q - 1 ==> |batches[b]| == 25) {
      assert batches[b] == d[25 * b .. Min(25 * (b + 1), |d|)];
    }
  }

  /** When d has no duplicate keys, no run is written twice: not within a batch, not across two. */
  lemma ChunksDisjoint<K, V>(d: Dict<K, V>)
    requires NoDupKeys(d)
    ensures forall b :: 0 <= b < |Chunks(d)| ==> NoDupKeys(Chunks(d)[b])
    ensures forall b, b' :: 0 <= b < b' < |Chunks(d)| ==> KeySet(Chunks(d)[b]) !! KeySet(Chunks(d)[b'])
  {
    var batches := Chunks(d);
    forall b | 0 <= b < |batches| ensures NoDupKeys(batches[b]) {
      var lo := 25 * b;
      assert batches[b] == d[lo .. Min(25 * (b + 1), |d|)];
      forall i, j | 0 <= i < j < |batches[b]| ensures batches[b][i].0 != batches[b][j].0 {
        assert batches[b][i] == d[lo + i] && batches[b][j] == d[lo + j];
      }
    }
    forall b, b' | 0 <= b < b' < |batches| ensures KeySet(batches[b]) !! KeySet(batches[b']) {
      assert batches[b] == d[25 * b .. Min(25 * (b + 1), |d|)];
      assert batches[b'] == d[25 * b' .. Min(25 * (b' + 1), |d|)];
    }
  }

  /** The first k batches together are the first min(25k, |d|) pairs of d. */
  lemma {:induction false} FlattenPrefix<K, V>(d: Dict<K, V>, k: nat)
    requires k <= |Chunks(d)|
    ensures Flatten(Chunks(d)[..k]) == d[..Min(25 * k, |d|)]
  {
    var batches := Chunks(d);
    if k == 0 {
      assert batches[..0] == [];
    } else {
      FlattenPrefix(d, k - 1);
      assert batches[..k][..k - 1] == batches[..k - 1];
      var lo := 25 * (k - 1);
      assert d[..lo] + d[lo .. Min(25 * k, |d|)] == d[..Min(25 * k, |d|)];
    }
  }
}
