/** Claiming chunk numbers, shared by all versions of the encoder of ihw4. */
module ChunkClaims {
  import opened Chunks
  import opened Encoding

  /** How often chunk `k` should be accounted for once the counter stands at `next`. */
  ghost function Expected(k: nat, next: nat, count: nat): int {
    if k < next && k < count then 1 else 0
  }

  ghost predicate Ascending(results: seq<Result>) {
    forall i, j | 0 <= i < j < |results| :: results[i].chunkNo <= results[j].chunkNo
  }

  ghost predicate StrictlyAscending(results: seq<Result>) {
    forall i, j | 0 <= i < j < |results| :: results[i].chunkNo < results[j].chunkNo
  }

  /** Every result is the result of its chunk. */
  ghost predicate Genuine(text: seq<code>, results: seq<Result>) {
    forall r | r in results :: r.chunkNo < ChunkCount(|text|) && r == ResultOf(text, r.chunkNo)
  }

  /** Two places of a list hold results of different chunks if one of them holds a unique result. */
  lemma Distinct(text: seq<code>, results: seq<Result>, i: nat, j: nat)
    requires Genuine(text, results) && i < j < |results|
    requires multiset(results)[results[i]] == 1
    ensures results[i].chunkNo != results[j].chunkNo
  {
    var before, after := results[..j], results[j..];
    assert results == before + after;
    assert before[i] in before && after[0] in after;
  }

  /** An ascending list with exactly one result for every chunk is the list in chunk order. */
  lemma {:induction false} InChunkOrder(text: seq<code>, results: seq<Result>, i: nat)
    requires Ascending(results) && Genuine(text, results) && i < ChunkCount(|text|)
    requires forall k | 0 <= k < ChunkCount(|text|) :: multiset(results)[ResultOf(text, k)] == 1
    ensures i < |results| && results[i].chunkNo == i
  {
    forall h | 0 <= h < i
      ensures h < |results| && results[h].chunkNo == h
    {
      InChunkOrder(text, results, h);
    }
    assert ResultOf(text, i) in multiset(results);
    var j :| 0 <= j < |results| && results[j] == ResultOf(text, i);
    assert i <= j;
    if i > 0 {
      Distinct(text, results, i - 1, i);
    }
  }

  lemma {:induction false} SuffixInOrder(text: seq<code>, results: seq<Result>, k: nat)
    requires k <= ChunkCount(|text|) == |results|
    requires forall i | 0 <= i < |results| :: results[i] == ResultOf(text, i)
    ensures results[k..] == ResultsFrom(text, k)
    decreases |results| - k
  {
    if k < |results| {
      SuffixInOrder(text, results, k + 1);
      assert results[k..] == [results[k]] + results[k + 1..];
    }
  }

  /** Printing such a list is the sequential specification. */
  lemma CompleteListPrints(text: seq<code>, results: seq<Result>)
    requires Ascending(results) && Genuine(text, results)
    requires forall k | 0 <= k < ChunkCount(|text|) :: multiset(results)[ResultOf(text, k)] == 1
    ensures results == ResultsFrom(text, 0)
    ensures Print(results) == Printed(text)
  {
    var count := ChunkCount(|text|);
    forall i | 0 <= i < count
      ensures i < |results| && results[i] == ResultOf(text, i)
    {
      InChunkOrder(text, results, i);
    }
    if |results| < count {
      InChunkOrder(text, results, |results|);
    } else if |results| > count {
      var r := results[count];
      InChunkOrder(text, results, r.chunkNo);
      Distinct(text, results, r.chunkNo, count);
      assert false;
    }
    SuffixInOrder(text, results, 0);
    PrintInOrder(text);
    assert results[0..] == results;
  }
}
