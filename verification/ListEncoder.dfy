/**
 Version 1 of the encoder of ihw4: threads claim chunk numbers under one lock and insert their
 results into a sorted list under another. One step is one critical section.
 */
module ListEncoder {
  import opened Sums
  import opened Chunks
  import opened Encoding
  import opened ChunkClaims

  datatype Thread = Claiming | Encoding(k: nat) | Exited

  datatype State = State(next: nat, threads: seq<Thread>, list: seq<Result>)

  /** `store_result`: scan back over the results that are not below the new one, insert after. */
  function Insert(list: seq<Result>, r: Result): seq<Result> {
    if list == [] || list[|list| - 1].chunkNo < r.chunkNo then list + [r]
    else Insert(list[..|list| - 1], r) + [list[|list| - 1]]
  }

  function Initial(threads: nat): State {
    State(0, seq(threads, _ => Claiming), [])
  }

  /** Thread `i` takes its next step: `get_next_chunk_no`, or encoding and `store_result`. */
  predicate Enabled(s: State, i: nat) {
    i < |s.threads| && !s.threads[i].Exited?
  }

  function Apply(text: seq<code>, s: State, i: nat): State
    requires Enabled(s, i)
    requires s.threads[i].Encoding? ==> s.threads[i].k < ChunkCount(|text|)
  {
    match s.threads[i]
    case Claiming =>
      s.(next := s.next + 1,
         threads := s.threads[i := if s.next < ChunkCount(|text|) then Encoding(s.next) else Exited])
    case Encoding(k) =>
      s.(threads := s.threads[i := Claiming], list := Insert(s.list, ResultOf(text, k)))
    case Exited => s
  }

  ghost function Holds(k: nat, t: Thread): int {
    if t == Encoding(k) then 1 else 0
  }

  ghost predicate Shape(text: seq<code>, s: State) {
    forall i | 0 <= i < |s.threads| :: s.threads[i].Encoding? ==> s.threads[i].k < ChunkCount(|text|)
  }

  ghost predicate Inv(text: seq<code>, s: State) {
    && Shape(text, s)
    && Ascending(s.list)
    && Genuine(text, s.list)
    && (Exited in s.threads ==> s.next > ChunkCount(|text|))
  }

  /** Chunk `k` is with one thread or in the list once, as soon as it has been claimed. */
  ghost predicate Accounted(text: seq<code>, s: State, k: nat)
    requires k < ChunkCount(|text|)
  {
    multiset(s.list)[ResultOf(text, k)] + Total(Holds, k, s.threads) == Expected(k, s.next, ChunkCount(|text|))
  }

  lemma {:induction false} InsertAddsOne(list: seq<Result>, r: Result)
    ensures multiset(Insert(list, r)) == multiset(list) + multiset{r}
  {
    if list != [] && list[|list| - 1].chunkNo >= r.chunkNo {
      InsertAddsOne(list[..|list| - 1], r);
      assert list == list[..|list| - 1] + [list[|list| - 1]];
    }
  }

  lemma InsertMember(list: seq<Result>, r: Result, x: Result)
    requires x in Insert(list, r)
    ensures x == r || x in list
  {
    InsertAddsOne(list, r);
    assert x in multiset(Insert(list, r));
  }

  lemma {:induction false} InsertKeepsOrder(list: seq<Result>, r: Result)
    requires Ascending(list)
    ensures Ascending(Insert(list, r))
  {
    if list != [] && list[|list| - 1].chunkNo >= r.chunkNo {
      var init, last := list[..|list| - 1], list[|list| - 1];
      InsertKeepsOrder(init, r);
      forall x | x in Insert(init, r)
        ensures x.chunkNo <= last.chunkNo
      {
        InsertMember(init, r, x);
      }
    }
  }

  /** A result with a new chunk number leaves a list without repetitions without repetitions. */
  lemma {:induction false} InsertKeepsStrict(list: seq<Result>, r: Result)
    requires StrictlyAscending(list) && forall x | x in list :: x.chunkNo != r.chunkNo
    ensures StrictlyAscending(Insert(list, r))
  {
    if list != [] && list[|list| - 1].chunkNo >= r.chunkNo {
      var init, last := list[..|list| - 1], list[|list| - 1];
      InsertKeepsStrict(init, r);
      forall x | x in Insert(init, r)
        ensures x.chunkNo < last.chunkNo
      {
        InsertMember(init, r, x);
      }
    }
  }

  lemma StepKeepsInv(text: seq<code>, s: State, i: nat)
    requires Inv(text, s) && Enabled(s, i)
    ensures Inv(text, Apply(text, s, i))
  {
    var t := Apply(text, s, i);
    if s.threads[i].Encoding? {
      var r := ResultOf(text, s.threads[i].k);
      InsertKeepsOrder(s.list, r);
      forall x | x in t.list
        ensures x == r || x in s.list
      {
        InsertMember(s.list, r, x);
      }
    }
  }

  lemma StepAccounts(text: seq<code>, s: State, i: nat, k: nat)
    requires Inv(text, s) && Enabled(s, i) && k < ChunkCount(|text|) && Accounted(text, s, k)
    ensures Accounted(text, Apply(text, s, i), k)
  {
    TotalUpdate(Holds, k, s.threads, i, Apply(text, s, i).threads[i]);
    if s.threads[i].Encoding? {
      InsertAddsOne(s.list, ResultOf(text, s.threads[i].k));
    }
  }

  /** An interleaving: the thread that moves, step by step. */
  ghost predicate Executable(text: seq<code>, s: State, acts: seq<nat>)
    requires Inv(text, s)
    decreases |acts|
  {
    acts == [] ||
    (Enabled(s, acts[0]) && (StepKeepsInv(text, s, acts[0]); Executable(text, Apply(text, s, acts[0]), acts[1..])))
  }

  ghost function After(text: seq<code>, s: State, acts: seq<nat>): State
    requires Inv(text, s) && Executable(text, s, acts)
    decreases |acts|
  {
    if acts == [] then s else StepKeepsInv(text, s, acts[0]); After(text, Apply(text, s, acts[0]), acts[1..])
  }

  lemma {:induction false} RunKeepsInv(text: seq<code>, s: State, acts: seq<nat>)
    requires Inv(text, s) && Executable(text, s, acts)
    ensures Inv(text, After(text, s, acts))
    ensures |After(text, s, acts).threads| == |s.threads|
    decreases |acts|
  {
    if acts != [] {
      StepKeepsInv(text, s, acts[0]);
      RunKeepsInv(text, Apply(text, s, acts[0]), acts[1..]);
    }
  }

  lemma {:induction false} RunAccounts(text: seq<code>, s: State, acts: seq<nat>, k: nat)
    requires Inv(text, s) && Executable(text, s, acts) && k < ChunkCount(|text|) && Accounted(text, s, k)
    ensures Accounted(text, After(text, s, acts), k)
    decreases |acts|
  {
    if acts != [] {
      StepKeepsInv(text, s, acts[0]);
      StepAccounts(text, s, acts[0], k);
      RunAccounts(text, Apply(text, s, acts[0]), acts[1..], k);
    }
  }

  /** No thread can take another step. */
  ghost predicate Ended(s: State) {
    forall i: nat :: !Enabled(s, i)
  }

  /** Threads only stop by exiting. */
  lemma EndedMeansExited(s: State)
    requires Ended(s)
    ensures forall t | t in s.threads :: t == Exited
  {
    forall t | t in s.threads
      ensures t == Exited
    {
      var i :| 0 <= i < |s.threads| && s.threads[i] == t;
      assert !Enabled(s, i);
    }
  }

  /** However any number of threads interleave, once nothing more can happen the list is the list of all
      chunks in order, and printing it is the sequential specification. */
  lemma EveryInterleavingPrints(text: seq<code>, threads: nat, acts: seq<nat>)
    requires threads > 0 && Executable(text, Initial(threads), acts)
    requires Ended(After(text, Initial(threads), acts))
    ensures After(text, Initial(threads), acts).list == ResultsFrom(text, 0)
    ensures Print(After(text, Initial(threads), acts).list) == Printed(text)
  {
    var s := Initial(threads);
    var t := After(text, s, acts);
    RunKeepsInv(text, s, acts);
    EndedMeansExited(t);
    assert t.threads[0] in t.threads;
    forall k: nat | k < ChunkCount(|text|)
      ensures multiset(t.list)[ResultOf(text, k)] == 1
    {
      TotalConstant(Holds, k, s.threads, 0);
      RunAccounts(text, s, acts, k);
      TotalConstant(Holds, k, t.threads, 0);
    }
    CompleteListPrints(text, t.list);
  }

  /** Results of different chunks, in ascending order, ascend strictly. */
  lemma UniqueAscends(text: seq<code>, list: seq<Result>)
    requires Ascending(list) && Genuine(text, list)
    requires forall k: nat | k < ChunkCount(|text|) :: multiset(list)[ResultOf(text, k)] <= 1
    ensures StrictlyAscending(list)
  {
    forall i, j | 0 <= i < j < |list|
      ensures list[i].chunkNo < list[j].chunkNo
    {
      assert list[i] in list && list[i] in multiset(list);
      Distinct(text, list, i, j);
    }
  }

  /** In every reachable state the list ascends strictly: no chunk is ever in it twice. */
  lemma AlwaysStrictlyAscending(text: seq<code>, threads: nat, acts: seq<nat>)
    requires Executable(text, Initial(threads), acts)
    ensures StrictlyAscending(After(text, Initial(threads), acts).list)
  {
    var s := Initial(threads);
    var t := After(text, s, acts);
    RunKeepsInv(text, s, acts);
    forall k: nat | k < ChunkCount(|text|)
      ensures multiset(t.list)[ResultOf(text, k)] <= 1
    {
      TotalConstant(Holds, k, s.threads, 0);
      RunAccounts(text, s, acts, k);
      TotalAtLeast(Holds, k, t.threads, 0);
    }
    UniqueAscends(text, t.list);
  }

  ghost function Weight(k: (), t: Thread): int {
    match t
    case Claiming => 1
    case Encoding(_) => 2
    case Exited => 0
  }

  ghost function Remaining(text: seq<code>, s: State): int {
    Total(Weight, (), s.threads) + if s.next < ChunkCount(|text|) then 2 * (ChunkCount(|text|) - s.next) else 0
  }

  lemma {:induction false} RunSteps(text: seq<code>, s: State, acts: seq<nat>)
    requires Inv(text, s) && Executable(text, s, acts)
    ensures |acts| + Remaining(text, After(text, s, acts)) == Remaining(text, s)
    decreases |acts|
  {
    if acts != [] {
      StepKeepsInv(text, s, acts[0]);
      TotalUpdate(Weight, (), s.threads, acts[0], Apply(text, s, acts[0]).threads[acts[0]]);
      RunSteps(text, Apply(text, s, acts[0]), acts[1..]);
    }
  }

  /** Every run ends: it has at most two steps per chunk and one per thread. */
  lemma EveryRunEnds(text: seq<code>, threads: nat, acts: seq<nat>)
    requires Executable(text, Initial(threads), acts)
    ensures |acts| <= 2 * ChunkCount(|text|) + threads
  {
    RunSteps(text, Initial(threads), acts);
    TotalConstant(Weight, (), Initial(threads).threads, 1);
    TotalAtLeast(Weight, (), After(text, Initial(threads), acts).threads, 0);
  }
}
