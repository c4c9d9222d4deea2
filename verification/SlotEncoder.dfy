/**
 Versions 2 and 3 of the encoder of ihw4: a thread claims a chunk number, encodes the chunk, claims
 a slot of the result array, and stores into it. The array is sorted after the threads have joined.

 The counters are advanced atomically (atomic_size_t in version 2, critical sections in version 3);
 the store into the slot is a step of its own, outside any lock.
 */
module SlotEncoder {
  import opened Prelude
  import opened Sums
  import opened Chunks
  import opened Encoding
  import opened ChunkClaims
  import opened Comparer

  datatype Thread = Claiming | Encoding(k: nat) | Storing(k: nat, index: nat) | Exited

  datatype State = State(next: nat, size: nat, threads: seq<Thread>, slots: seq<Option<Result>>)

  /** Version 2 allocates one slot per chunk, version 3 one per character. */
  function Initial(threads: nat, slots: nat): State {
    State(0, 0, seq(threads, _ => Claiming), seq(slots, _ => None))
  }

  predicate Enabled(s: State, i: nat) {
    i < |s.threads| && !s.threads[i].Exited?
  }

  ghost predicate Shape(text: seq<code>, s: State) {
    && (forall i | 0 <= i < |s.threads| :: s.threads[i].Encoding? ==> s.threads[i].k < ChunkCount(|text|))
    && (forall i | 0 <= i < |s.threads| :: s.threads[i].Storing? ==>
          s.threads[i].k < ChunkCount(|text|) && s.threads[i].index < s.size)
    && s.size <= |s.slots|
  }

  function Apply(text: seq<code>, s: State, i: nat): State
    requires Shape(text, s) && Enabled(s, i)
  {
    match s.threads[i]
    case Claiming =>
      s.(next := s.next + 1,
         threads := s.threads[i := if s.next < ChunkCount(|text|) then Encoding(s.next) else Exited])
    case Encoding(k) =>
      s.(size := s.size + 1, threads := s.threads[i := Storing(k, s.size)])
    case Storing(k, index) =>
      s.(threads := s.threads[i := Claiming], slots := s.slots[index := Some(ResultOf(text, k))])
    case Exited => s
  }

  ghost function Holds(k: nat, t: Thread): int {
    if (t.Encoding? || t.Storing?) && t.k == k then 1 else 0
  }

  ghost function Encodes(u: (), t: Thread): int {
    if t.Encoding? then 1 else 0
  }

  ghost function StoresAt(index: nat, t: Thread): int {
    if t.Storing? && t.index == index then 1 else 0
  }

  ghost predicate Inv(text: seq<code>, s: State) {
    && Shape(text, s)
    && ChunkCount(|text|) <= |s.slots|
    && (forall j | 0 <= j < |s.slots| && s.slots[j].Some? ::
          s.slots[j].value.chunkNo < ChunkCount(|text|)
          && s.slots[j].value == ResultOf(text, s.slots[j].value.chunkNo))
    && s.size + Total(Encodes, (), s.threads) == Min(s.next, ChunkCount(|text|))
    && (Exited in s.threads ==> s.next > ChunkCount(|text|))
  }

  /** Chunk `k` is with one thread or in one slot, as soon as it has been claimed. */
  ghost predicate Accounted(text: seq<code>, s: State, k: nat)
    requires k < ChunkCount(|text|)
  {
    multiset(s.slots)[Some(ResultOf(text, k))] + Total(Holds, k, s.threads)
    == Expected(k, s.next, ChunkCount(|text|))
  }

  /** A slot is free, claimed by exactly one thread, or filled. */
  ghost predicate SlotOwned(s: State, index: nat)
    requires index < |s.slots|
  {
    (if s.slots[index].Some? then 1 else 0) + Total(StoresAt, index, s.threads) == if index < s.size then 1 else 0
  }

  /** A thread that asks for a slot gets one inside the array. */
  lemma SlotIsAvailable(text: seq<code>, s: State, i: nat)
    requires Inv(text, s) && i < |s.threads| && s.threads[i].Encoding?
    ensures s.size < ChunkCount(|text|) <= |s.slots|
  {
    TotalMember(Encodes, (), s.threads, i);
  }

  /** The slot a thread stores into is still empty: no result is overwritten. */
  lemma OwnSlotIsEmpty(s: State, i: nat)
    requires i < |s.threads| && s.threads[i].Storing? && s.threads[i].index < |s.slots|
    requires SlotOwned(s, s.threads[i].index)
    ensures s.slots[s.threads[i].index] == None
  {
    TotalMember(StoresAt, s.threads[i].index, s.threads, i);
  }

  lemma StepKeepsInv(text: seq<code>, s: State, i: nat)
    requires Inv(text, s) && Enabled(s, i)
    ensures Inv(text, Apply(text, s, i))
  {
    TotalUpdate(Encodes, (), s.threads, i, Apply(text, s, i).threads[i]);
    if s.threads[i].Encoding? {
      SlotIsAvailable(text, s, i);
    }
  }

  lemma StepKeepsSlot(text: seq<code>, s: State, i: nat, index: nat)
    requires Inv(text, s) && Enabled(s, i) && index < |s.slots| && SlotOwned(s, index)
    ensures SlotOwned(Apply(text, s, i), index)
  {
    TotalUpdate(StoresAt, index, s.threads, i, Apply(text, s, i).threads[i]);
    if s.threads[i].Storing? && s.threads[i].index == index {
      OwnSlotIsEmpty(s, i);
    }
  }

  lemma StepAccounts(text: seq<code>, s: State, i: nat, k: nat)
    requires Inv(text, s) && Enabled(s, i) && k < ChunkCount(|text|) && Accounted(text, s, k)
    requires forall index: nat | index < |s.slots| :: SlotOwned(s, index)
    ensures Accounted(text, Apply(text, s, i), k)
  {
    var t := Apply(text, s, i);
    TotalUpdate(Holds, k, s.threads, i, t.threads[i]);
    if s.threads[i].Storing? {
      OwnSlotIsEmpty(s, i);
    }
  }

  ghost predicate FullInv(text: seq<code>, s: State) {
    && Inv(text, s)
    && (forall index: nat | index < |s.slots| :: SlotOwned(s, index))
    && (forall k: nat | k < ChunkCount(|text|) :: Accounted(text, s, k))
  }

  lemma StepKeepsFullInv(text: seq<code>, s: State, i: nat)
    requires FullInv(text, s) && Enabled(s, i)
    ensures FullInv(text, Apply(text, s, i))
  {
    var t := Apply(text, s, i);
    StepKeepsInv(text, s, i);
    forall index: nat | index < |t.slots|
      ensures SlotOwned(t, index)
    {
      StepKeepsSlot(text, s, i, index);
    }
    forall k: nat | k < ChunkCount(|text|)
      ensures Accounted(text, t, k)
    {
      StepAccounts(text, s, i, k);
    }
  }

  lemma InitialInv(text: seq<code>, threads: nat, slots: nat)
    requires ChunkCount(|text|) <= slots
    ensures FullInv(text, Initial(threads, slots))
  {
    var s := Initial(threads, slots);
    TotalConstant(Encodes, (), s.threads, 0);
    forall index: nat | index < slots
      ensures SlotOwned(s, index)
    {
      TotalConstant(StoresAt, index, s.threads, 0);
    }
    forall k: nat | k < ChunkCount(|text|)
      ensures Accounted(text, s, k)
    {
      TotalConstant(Holds, k, s.threads, 0);
      assert Some(ResultOf(text, k)) !in multiset(s.slots);
    }
  }

  ghost predicate Executable(text: seq<code>, s: State, acts: seq<nat>)
    requires FullInv(text, s)
    decreases |acts|
  {
    acts == [] ||
    (Enabled(s, acts[0]) &&
     (StepKeepsFullInv(text, s, acts[0]); Executable(text, Apply(text, s, acts[0]), acts[1..])))
  }

  ghost function After(text: seq<code>, s: State, acts: seq<nat>): (t: State)
    requires FullInv(text, s) && Executable(text, s, acts)
    ensures FullInv(text, t) && |t.threads| == |s.threads| && |t.slots| == |s.slots|
    decreases |acts|
  {
    if acts == [] then s
    else StepKeepsFullInv(text, s, acts[0]); After(text, Apply(text, s, acts[0]), acts[1..])
  }

  // --- sorting and printing -------------------------------------------------------------------

  /** What qsort promises: a permutation in ascending order under the comparer. */
  ghost predicate Sorted(before: seq<Option<Result>>, after: seq<Option<Result>>) {
    && multiset(after) == multiset(before)
    && forall i, j | 0 <= i < j < |after| && after[i].Some? && after[j].Some? ::
         Compare(after[i].value.chunkNo, after[j].value.chunkNo) <= 0
  }

  /** `print_encoding_results`: slots that were never filled are skipped. */
  function PrintSlots(slots: seq<Option<Result>>): seq<code> {
    if slots == [] then []
    else (match slots[0] case None => [] case Some(r) => UntilNoCode(r.codes)) + PrintSlots(slots[1..])
  }

  function Filled(slots: seq<Option<Result>>): (results: seq<Result>)
    requires forall j | 0 <= j < |slots| :: slots[j].Some?
    ensures |results| == |slots|
    ensures forall j | 0 <= j < |slots| :: Some(results[j]) == slots[j]
  {
    if slots == [] then [] else [slots[0].value] + Filled(slots[1..])
  }

  lemma {:induction false} PrintFilled(slots: seq<Option<Result>>)
    requires forall j | 0 <= j < |slots| :: slots[j].Some?
    ensures PrintSlots(slots) == Print(Filled(slots))
  {
    if slots != [] {
      PrintFilled(slots[1..]);
      assert Filled(slots)[1..] == Filled(slots[1..]);
    }
  }

  lemma {:induction false} FilledCounts(slots: seq<Option<Result>>, r: Result)
    requires forall j | 0 <= j < |slots| :: slots[j].Some?
    ensures multiset(Filled(slots))[r] == multiset(slots)[Some(r)]
  {
    if slots != [] {
      FilledCounts(slots[1..], r);
      var first, rest := slots[0], slots[1..];
      assert slots == [first] + rest;
      assert multiset(slots) == multiset{first} + multiset(rest);
      assert multiset(Filled(slots)) == multiset{first.value} + multiset(Filled(rest));
    }
  }

  /** Once every thread has exited, exactly the slots below `size` are filled, one per chunk. */
  lemma AllSlotsFilled(text: seq<code>, s: State)
    requires FullInv(text, s) && |s.threads| > 0 && forall t | t in s.threads :: t == Exited
    ensures s.size == ChunkCount(|text|)
    ensures forall j | 0 <= j < |s.slots| :: s.slots[j].Some? <==> j < s.size
  {
    assert s.threads[0] in s.threads;
    TotalConstant(Encodes, (), s.threads, 0);
    forall j: nat | j < |s.slots|
      ensures s.slots[j].Some? <==> j < s.size
    {
      assert SlotOwned(s, j);
      TotalConstant(StoresAt, j, s.threads, 0);
    }
  }

  /** Empty slots at the end do not change how often a result occurs. */
  lemma EmptySlotsDoNotCount(used: seq<Option<Result>>, rest: seq<Option<Result>>, r: Result)
    requires forall j | 0 <= j < |rest| :: rest[j] == None
    ensures multiset(used + rest)[Some(r)] == multiset(used)[Some(r)]
  {
    assert Some(r) !in rest;
  }

  lemma UsedSlotsCount(text: seq<code>, s: State, k: nat)
    requires FullInv(text, s) && |s.threads| > 0 && forall t | t in s.threads :: t == Exited
    requires s.size <= |s.slots| && k < ChunkCount(|text|)
    ensures multiset(s.slots[..s.size])[Some(ResultOf(text, k))] == 1
  {
    AllSlotsFilled(text, s);
    assert Accounted(text, s, k);
    assert s.threads[0] in s.threads;
    TotalConstant(Holds, k, s.threads, 0);
    var used, rest := s.slots[..s.size], s.slots[s.size..];
    forall j | 0 <= j < |rest|
      ensures rest[j] == None
    {
      assert rest[j] == s.slots[s.size + j];
    }
    EmptySlotsDoNotCount(used, rest, ResultOf(text, k));
    assert s.slots == used + rest;
  }

  /** Sorting keeps the entries. */
  lemma SortedEntry(before: seq<Option<Result>>, after: seq<Option<Result>>, j: nat)
    requires Sorted(before, after) && j < |after|
    ensures after[j] in before
  {
    assert after[j] in multiset(after);
  }

  lemma SortedAscends(before: seq<Option<Result>>, after: seq<Option<Result>>, count: nat)
    requires Sorted(before, after) && count <= 0x8000_0000
    requires forall j | 0 <= j < |after| :: after[j].Some? && after[j].value.chunkNo < count
    ensures Ascending(Filled(after))
  {
    var results := Filled(after);
    forall i, j | 0 <= i < j < |results|
      ensures results[i].chunkNo <= results[j].chunkNo
    {
      CompareSmall(after[i].value.chunkNo, after[j].value.chunkNo);
    }
  }

  /** However the threads interleave and whatever qsort does with the slots in use, the printed
      output is the sequential specification. */
  lemma FinalStatePrints(text: seq<code>, s: State, sorted: seq<Option<Result>>)
    requires FullInv(text, s) && |s.threads| > 0 && forall t | t in s.threads :: t == Exited
    requires ChunkCount(|text|) <= 0x8000_0000
    requires s.size <= |s.slots| && Sorted(s.slots[..s.size], sorted)
    ensures PrintSlots(sorted) == Printed(text)
  {
    AllSlotsFilled(text, s);
    forall j | 0 <= j < |sorted|
      ensures sorted[j].Some? && sorted[j].value.chunkNo < ChunkCount(|text|)
      ensures sorted[j].value == ResultOf(text, sorted[j].value.chunkNo)
    {
      SortedEntry(s.slots[..s.size], sorted, j);
    }
    SortedAscends(s.slots[..s.size], sorted, ChunkCount(|text|));
    forall k: nat | k < ChunkCount(|text|)
      ensures multiset(Filled(sorted))[ResultOf(text, k)] == 1
    {
      UsedSlotsCount(text, s, k);
      FilledCounts(sorted, ResultOf(text, k));
    }
    CompleteListPrints(text, Filled(sorted));
    PrintFilled(sorted);
  }

  /** No thread can take another step. */
  ghost predicate Ended(s: State) {
    forall i: nat :: !Enabled(s, i)
  }

  /** Threads only stop by exiting. */
  lemma EndedMeansExited(s: State)
    requires Ended(s)
    ensures forall t | t in s.threads :: t == Exited
  {
    forall t | t in s.threads
      ensures t == Exited
    {
      var i :| 0 <= i < |s.threads| && s.threads[i] == t;
      assert !Enabled(s, i);
    }
  }

  /** The same, for every run of any number of threads and any array large enough, once nothing more
      can happen. */
  lemma EveryInterleavingPrints(text: seq<code>, threads: nat, slots: nat, acts: seq<nat>, sorted: seq<Option<Result>>)
    requires threads > 0 && ChunkCount(|text|) <= slots && ChunkCount(|text|) <= 0x8000_0000
    requires FullInv(text, Initial(threads, slots)) && Executable(text, Initial(threads, slots), acts)
    requires var t := After(text, Initial(threads, slots), acts);
             && Ended(t) && Sorted(t.slots[..t.size], sorted)
    ensures PrintSlots(sorted) == Printed(text)
  {
    EndedMeansExited(After(text, Initial(threads, slots), acts));
    FinalStatePrints(text, After(text, Initial(threads, slots), acts), sorted);
  }

  /** Version 3 sizes its array by the number of characters, which is enough. */
  lemma CharactersAreEnoughSlots(text: seq<code>)
    ensures ChunkCount(|text|) <= |text|
  {
  }

  ghost function Weight(u: (), t: Thread): int {
    match t
    case Claiming => 1
    case Encoding(_) => 3
    case Storing(_, _) => 2
    case Exited => 0
  }

  ghost function Remaining(text: seq<code>, s: State): int {
    Total(Weight, (), s.threads) + if s.next < ChunkCount(|text|) then 3 * (ChunkCount(|text|) - s.next) else 0
  }

  lemma {:induction false} RunSteps(text: seq<code>, s: State, acts: seq<nat>)
    requires FullInv(text, s) && Executable(text, s, acts)
    ensures |acts| + Remaining(text, After(text, s, acts)) == Remaining(text, s)
    decreases |acts|
  {
    if acts != [] {
      StepKeepsFullInv(text, s, acts[0]);
      TotalUpdate(Weight, (), s.threads, acts[0], Apply(text, s, acts[0]).threads[acts[0]]);
      RunSteps(text, Apply(text, s, acts[0]), acts[1..]);
    }
  }

  /** Every run ends: it has at most three steps per chunk and one per thread. */
  lemma EveryRunEnds(text: seq<code>, threads: nat, slots: nat, acts: seq<nat>)
    requires FullInv(text, Initial(threads, slots)) && Executable(text, Initial(threads, slots), acts)
    ensures |acts| <= 3 * ChunkCount(|text|) + threads
  {
    RunSteps(text, Initial(threads, slots), acts);
    TotalConstant(Weight, (), Initial(threads, slots).threads, 1);
    TotalAtLeast(Weight, (), After(text, Initial(threads, slots), acts).threads, 0);
  }
}
