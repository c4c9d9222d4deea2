/**
 The producers and consumers of os_hw8: writers and readers of one ring under two different mutexes.
 Only the `empty` and `full` permits keep a writer and a reader off the same cell. One step is one
 semaphore operation or one access to the shared memory.
 */
module SplitMutexRing {
  import opened Prelude
  import opened Ring
  import opened Sums

  /** The value of a cell no number is stored in. */
  const EMPTY_CELL: int := -1

  /** A writer, by what it does next: two waits, the store, the index, two posts. */
  datatype Writer = WaitingForEmpty | WaitingToWrite | AtCell | CellWritten | IndexMoved | FullPosted {
    predicate Inside() {
      AtCell? || CellWritten? || IndexMoved? || FullPosted?
    }
  }

  /** A reader, by what it does next: two waits, the load, clearing the cell, the index, two posts. */
  datatype Reader =
    | WaitingForFull | WaitingToRead | AtEntry
    | EntryRead(value: int) | EntryCleared(value: int) | EntryDropped(value: int) | EmptyPosted(value: int)
  {
    predicate Inside() {
      !WaitingForFull? && !WaitingToRead?
    }

    /** The reader is using the cell at the read index. */
    predicate UsesCell() {
      AtEntry? || EntryRead? || EntryCleared?
    }
  }

  /** `produced` and `consumed` record the numbers that passed the write and the read index. */
  datatype State = State(
    ring: Ring<int>,
    empty: nat,
    full: nat,
    writeMutex: Option<nat>,
    readMutex: Option<nat>,
    writers: seq<Writer>,
    readers: seq<Reader>,
    produced: seq<int>,
    consumed: seq<int>)

  /** `value` is the number drawn by the writer; the other steps ignore it. */
  datatype Action = WriterStep(i: nat, value: int) | ReaderStep(i: nat)

  // --- the machine ----------------------------------------------------------------------------

  predicate WriterEnabled(s: State, i: nat, value: int) {
    && i < |s.writers|
    && s.ring.InBounds()
    && match s.writers[i]
       case WaitingForEmpty => s.empty > 0
       case WaitingToWrite => s.writeMutex == None
       case AtCell => 0 <= value <= 10
       case _ => true
  }

  function WriterNext(s: State, i: nat, value: int): State
    requires WriterEnabled(s, i, value)
  {
    match s.writers[i]
    case WaitingForEmpty => s.(empty := s.empty - 1, writers := s.writers[i := WaitingToWrite])
    case WaitingToWrite => s.(writeMutex := Some(i), writers := s.writers[i := AtCell])
    case AtCell => s.(ring := s.ring.Store(value), writers := s.writers[i := CellWritten])
    case CellWritten =>
      s.(ring := s.ring.Advance(), writers := s.writers[i := IndexMoved],
         produced := s.produced + [s.ring.cells[s.ring.write]])
    case IndexMoved => s.(full := s.full + 1, writers := s.writers[i := FullPosted])
    case FullPosted => s.(writeMutex := None, writers := s.writers[i := WaitingForEmpty])
  }

  predicate ReaderEnabled(s: State, i: nat) {
    && i < |s.readers|
    && s.ring.InBounds()
    && match s.readers[i]
       case WaitingForFull => s.full > 0
       case WaitingToRead => s.readMutex == None
       case _ => true
  }

  function ReaderNext(s: State, i: nat): State
    requires ReaderEnabled(s, i)
  {
    match s.readers[i]
    case WaitingForFull => s.(full := s.full - 1, readers := s.readers[i := WaitingToRead])
    case WaitingToRead => s.(readMutex := Some(i), readers := s.readers[i := AtEntry])
    case AtEntry => s.(readers := s.readers[i := EntryRead(s.ring.cells[s.ring.read])])
    case EntryRead(v) => s.(ring := Clear(s.ring), readers := s.readers[i := EntryCleared(v)])
    case EntryCleared(v) =>
      s.(ring := s.ring.Drop(), readers := s.readers[i := EntryDropped(v)], consumed := s.consumed + [v])
    case EntryDropped(v) => s.(empty := s.empty + 1, readers := s.readers[i := EmptyPosted(v)])
    case EmptyPosted(_) => s.(readMutex := None, readers := s.readers[i := WaitingForFull])
  }

  /** The reader marks the cell it has read as empty. */
  function Clear(r: Ring<int>): Ring<int>
    requires r.InBounds()
  {
    r.(cells := r.cells[r.read := EMPTY_CELL])
  }

  predicate Enabled(s: State, a: Action) {
    match a
    case WriterStep(i, value) => WriterEnabled(s, i, value)
    case ReaderStep(i) => ReaderEnabled(s, i)
  }

  function Apply(s: State, a: Action): State
    requires Enabled(s, a)
  {
    match a
    case WriterStep(i, value) => WriterNext(s, i, value)
    case ReaderStep(i) => ReaderNext(s, i)
  }

  function Initial(capacity: nat, writers: nat, readers: nat): State {
    State(Ring(seq(capacity, _ => EMPTY_CELL), 0, 0), capacity, 0, None, None,
          seq(writers, _ => WaitingForEmpty), seq(readers, _ => WaitingForFull), [], [])
  }

  // --- the invariant --------------------------------------------------------------------------

  /** Each mutex is held by exactly the process inside its section. */
  ghost predicate Locks(s: State) {
    && (forall i {:trigger s.writers[i]} | 0 <= i < |s.writers| :: s.writers[i].Inside() <==> s.writeMutex == Some(i))
    && (forall i {:trigger s.readers[i]} | 0 <= i < |s.readers| :: s.readers[i].Inside() <==> s.readMutex == Some(i))
    && (s.writeMutex.Some? ==> s.writeMutex.value < |s.writers|)
    && (s.readMutex.Some? ==> s.readMutex.value < |s.readers|)
  }

  /** A writer that took an `empty` permit and has not yet filled a cell. */
  ghost function HoldsEmpty(k: (), w: Writer): int {
    if w.WaitingToWrite? || w.AtCell? || w.CellWritten? then 1 else 0
  }

  /** A writer that filled a cell and has not yet posted `full`. */
  ghost function OwesFull(k: (), w: Writer): int {
    if w.IndexMoved? then 1 else 0
  }

  ghost function HoldsFull(k: (), r: Reader): int {
    if r.WaitingToRead? || r.UsesCell() then 1 else 0
  }

  ghost function OwesEmpty(k: (), r: Reader): int {
    if r.EntryDropped? then 1 else 0
  }

  /** Every cell is accounted for, once among the free and once among the filled ones. */
  ghost predicate Permits(s: State) {
    && s.empty + Total(HoldsEmpty, (), s.writers) + Total(OwesEmpty, (), s.readers)
       == |s.ring.cells| - (|s.produced| - |s.consumed|)
    && s.full + Total(OwesFull, (), s.writers) + Total(HoldsFull, (), s.readers) == |s.produced| - |s.consumed|
  }

  /** The numbers between the read and the write index, oldest first. */
  ghost function Queue(s: State): seq<int> {
    if |s.consumed| <= |s.produced| then s.produced[|s.consumed|..] else []
  }

  /** A writer has stored its number but not yet moved the write index. */
  predicate Stored(s: State) {
    s.writeMutex.Some? && s.writeMutex.value < |s.writers| && s.writers[s.writeMutex.value].CellWritten?
  }

  /** A reader has cleared its cell but not yet moved the read index. */
  predicate Cleared(s: State) {
    s.readMutex.Some? && s.readMutex.value < |s.readers| && s.readers[s.readMutex.value].EntryCleared?
  }

  predicate InRange(v: int) {
    0 <= v <= 10
  }

  /** How far cell `k` lies behind the read index. */
  function Offset(r: Ring<int>, k: nat): int {
    if k >= r.read then k - r.read else k - r.read + |r.cells|
  }

  /** All cells from the `used`-th after the read index on are empty. */
  ghost predicate FreeFrom(r: Ring<int>, used: nat) {
    forall k: nat {:trigger r.cells[k]} | k < |r.cells| && used <= Offset(r, k) :: r.cells[k] == EMPTY_CELL
  }

  /** The ring with the number a reader has just cleared put back. */
  function Restored(r: Ring<int>, v: int): Ring<int>
    requires r.InBounds()
  {
    r.(cells := r.cells[r.read := v])
  }

  ghost predicate RingHolds(r: Ring<int>, cleared: bool, stored: bool, q: seq<int>) {
    && r.InBounds()
    && (cleared ==> q != [] && r.cells[r.read] == EMPTY_CELL)
    && (if cleared then Restored(r, q[0]).Holds(q) else r.Holds(q))
    && (stored ==> |q| < |r.cells| && InRange(r.cells[r.write]))
    && FreeFrom(r, if stored then |q| + 1 else |q|)
  }

  ghost predicate Recorded(s: State) {
    && |s.consumed| <= |s.produced|
    && s.consumed == s.produced[..|s.consumed|]
    && (forall v | v in s.produced :: InRange(v))
  }

  /** A reader that has read its entry has the oldest number. */
  ghost predicate ReadersKnow(s: State) {
    forall i {:trigger s.readers[i]} | 0 <= i < |s.readers| && (s.readers[i].EntryRead? || s.readers[i].EntryCleared?) ::
      Queue(s) != [] && s.readers[i].value == Queue(s)[0]
  }

  ghost predicate Contents(s: State) {
    Recorded(s) && RingHolds(s.ring, Cleared(s), Stored(s), Queue(s)) && ReadersKnow(s)
  }

  ghost predicate Inv(s: State) {
    Locks(s) && Permits(s) && Contents(s)
  }

  // --- permits --------------------------------------------------------------------------------

  lemma WriterPermits(s: State, i: nat, value: int)
    requires Permits(s) && WriterEnabled(s, i, value)
    ensures Permits(WriterNext(s, i, value))
  {
    var w := WriterNext(s, i, value).writers[i];
    TotalUpdate(HoldsEmpty, (), s.writers, i, w);
    TotalUpdate(OwesFull, (), s.writers, i, w);
  }

  lemma ReaderPermits(s: State, i: nat)
    requires Permits(s) && ReaderEnabled(s, i)
    ensures Permits(ReaderNext(s, i))
  {
    var r := ReaderNext(s, i).readers[i];
    TotalUpdate(HoldsFull, (), s.readers, i, r);
    TotalUpdate(OwesEmpty, (), s.readers, i, r);
  }

  lemma StepLocks(s: State, a: Action)
    requires Locks(s) && Enabled(s, a)
    ensures Locks(Apply(s, a))
  {
  }

  /** A writer at a cell has a permit for it: the ring is not full. */
  lemma WriterHasRoom(s: State, i: nat)
    requires Permits(s) && i < |s.writers| && (s.writers[i].AtCell? || s.writers[i].CellWritten?)
    ensures |s.produced| - |s.consumed| < |s.ring.cells|
  {
    TotalMember(HoldsEmpty, (), s.writers, i);
    TotalAtLeast(OwesEmpty, (), s.readers, 0);
  }

  /** A reader at a cell has a permit for it: the ring is not empty. */
  lemma ReaderHasEntry(s: State, i: nat)
    requires Permits(s) && i < |s.readers| && s.readers[i].UsesCell()
    ensures |s.produced| - |s.consumed| > 0
  {
    TotalMember(HoldsFull, (), s.readers, i);
    TotalAtLeast(OwesFull, (), s.writers, 0);
  }

  // --- contents -------------------------------------------------------------------------------

  /** The write index lies right behind the queue. */
  lemma WriteOffset(r: Ring<int>, q: seq<int>)
    requires r.Holds(q) && |q| < |r.cells|
    ensures Offset(r, r.write) == |q|
  {
    WrapMod(r.read + |q|, |r.cells|);
  }

  /** Storing a number into the cell at the write index: it was empty, and no entry is touched. */
  lemma StoreContents(r: Ring<int>, cleared: bool, q: seq<int>, x: int)
    requires RingHolds(r, cleared, false, q) && |q| < |r.cells| && InRange(x)
    ensures r.cells[r.write] == EMPTY_CELL
    ensures RingHolds(r.Store(x), cleared, true, q)
  {
    WriteOffset(if cleared then Restored(r, q[0]) else r, q);
    if cleared {
      Restored(r, q[0]).StoreHolds(q, x);
      assert Restored(r.Store(x), q[0]) == Restored(r, q[0]).Store(x);
    } else {
      r.StoreHolds(q, x);
    }
  }

  /** Moving the write index publishes the number. */
  lemma AdvanceContents(r: Ring<int>, cleared: bool, q: seq<int>)
    requires RingHolds(r, cleared, true, q)
    ensures RingHolds(r.Advance(), cleared, false, q + [r.cells[r.write]])
  {
    var x := r.cells[r.write];
    if cleared {
      Restored(r, q[0]).IndicesDiffer(q);
      Restored(r, q[0]).AdvanceHolds(q);
      assert Restored(r, q[0]).Advance() == Restored(r.Advance(), q[0]);
      assert (q + [x])[0] == q[0];
    } else {
      r.AdvanceHolds(q);
    }
  }

  lemma ClearContents(r: Ring<int>, stored: bool, q: seq<int>)
    requires RingHolds(r, false, stored, q) && q != []
    ensures RingHolds(Clear(r), true, stored, q)
  {
    r.DropHolds(q);
    assert Restored(Clear(r), q[0]) == r;
    if stored {
      r.IndicesDiffer(q);
    }
  }

  /** A change outside the window of the queue does not show. */
  lemma OutsideHolds(r: Ring<int>, q: seq<int>, k: nat, x: int)
    requires r.Holds(q) && k < |r.cells| && |q| <= Offset(r, k)
    ensures r.(cells := r.cells[k := x]).Holds(q)
  {
    var n := |r.cells|;
    forall i {:trigger q[i]} | 0 <= i < |q|
      ensures r.cells[k := x][(r.read + i) % n] == q[i]
    {
      WrapMod(r.read + i, n);
    }
  }

  lemma DropFree(r: Ring<int>, used: nat)
    requires r.InBounds() && r.cells[r.read] == EMPTY_CELL && FreeFrom(r, used + 1)
    ensures FreeFrom(r.Drop(), used)
  {
    WrapMod(r.read + 1, |r.cells|);
  }

  /** Moving the read index past a cleared cell removes the oldest number. */
  lemma DropContents(r: Ring<int>, stored: bool, q: seq<int>)
    requires RingHolds(r, true, stored, q)
    ensures RingHolds(r.Drop(), false, stored, q[1..])
  {
    var o := Restored(r, q[0]);
    o.DropHolds(q);
    WrapMod(r.read + 1, |r.cells|);
    OutsideHolds(o.Drop(), q[1..], r.read, EMPTY_CELL);
    assert o.Drop().(cells := o.cells[r.read := EMPTY_CELL]) == r.Drop();
    DropFree(r, if stored then |q| else |q| - 1);
  }

  /** While one writer is inside, no other is. */
  lemma OnlyWriter(s: State, i: nat)
    requires Locks(s) && i < |s.writers| && s.writers[i].Inside()
    ensures s.writeMutex == Some(i)
    ensures Stored(s) <==> s.writers[i].CellWritten?
  {
  }

  lemma OnlyReader(s: State, i: nat)
    requires Locks(s) && i < |s.readers| && s.readers[i].Inside()
    ensures s.readMutex == Some(i) && (Cleared(s) <==> s.readers[i].EntryCleared?)
    ensures forall j | 0 <= j < |s.readers| && j != i :: !s.readers[j].EntryRead? && !s.readers[j].EntryCleared?
  {
  }

  lemma WriterStores(s: State, i: nat, value: int)
    requires Locks(s) && Permits(s) && Contents(s) && WriterEnabled(s, i, value) && s.writers[i].AtCell?
    ensures Contents(WriterNext(s, i, value))
  {
    var t := WriterNext(s, i, value);
    OnlyWriter(s, i);
    WriterHasRoom(s, i);
    StoreContents(s.ring, Cleared(s), Queue(s), value);
    assert Cleared(t) == Cleared(s) && Queue(t) == Queue(s) && Stored(t);
  }

  lemma WriterPublishes(s: State, i: nat, value: int)
    requires Locks(s) && Contents(s) && WriterEnabled(s, i, value) && s.writers[i].CellWritten?
    ensures Contents(WriterNext(s, i, value))
  {
    var t := WriterNext(s, i, value);
    OnlyWriter(s, i);
    assert Cleared(t) == Cleared(s) && !Stored(t);
    assert Queue(t) == Queue(s) + [s.ring.cells[s.ring.write]];
    AdvanceContents(s.ring, Cleared(s), Queue(s));
    StillTheOldest(s, t);
  }

  /** Numbers added at the end leave the oldest one the oldest. */
  lemma StillTheOldest(s: State, t: State)
    requires ReadersKnow(s) && t.readers == s.readers && Queue(s) <= Queue(t)
    ensures ReadersKnow(t)
  {
  }

  lemma WriterElsewhere(s: State, i: nat, value: int)
    requires Locks(s) && Contents(s) && WriterEnabled(s, i, value)
    requires !s.writers[i].AtCell? && !s.writers[i].CellWritten?
    ensures Contents(WriterNext(s, i, value))
  {
    var t := WriterNext(s, i, value);
    assert Cleared(t) == Cleared(s) && Stored(t) == Stored(s) && Queue(t) == Queue(s);
  }

  lemma ReaderLoads(s: State, i: nat)
    requires Locks(s) && Permits(s) && Contents(s) && ReaderEnabled(s, i) && s.readers[i].AtEntry?
    ensures Contents(ReaderNext(s, i))
  {
    var t := ReaderNext(s, i);
    OnlyReader(s, i);
    ReaderHasEntry(s, i);
    s.ring.DropHolds(Queue(s));
    assert Stored(t) == Stored(s) && Queue(t) == Queue(s) && !Cleared(t);
  }

  lemma ReaderClears(s: State, i: nat)
    requires Locks(s) && Contents(s) && ReaderEnabled(s, i) && s.readers[i].EntryRead?
    ensures Contents(ReaderNext(s, i))
  {
    var t := ReaderNext(s, i);
    OnlyReader(s, i);
    ClearContents(s.ring, Stored(s), Queue(s));
    assert Stored(t) == Stored(s) && Queue(t) == Queue(s) && Cleared(t);
  }

  lemma OneMoreRead(produced: seq<int>, consumed: seq<int>, v: int)
    requires |consumed| < |produced| && consumed == produced[..|consumed|] && v == produced[|consumed|]
    ensures consumed + [v] == produced[..|consumed| + 1]
    ensures produced[|consumed| + 1..] == produced[|consumed|..][1..]
  {
  }

  lemma ReaderRemoves(s: State, i: nat)
    requires Locks(s) && Contents(s) && ReaderEnabled(s, i) && s.readers[i].EntryCleared?
    ensures Contents(ReaderNext(s, i))
  {
    var t := ReaderNext(s, i);
    OnlyReader(s, i);
    OneMoreRead(s.produced, s.consumed, s.readers[i].value);
    DropContents(s.ring, Stored(s), Queue(s));
    assert Stored(t) == Stored(s) && !Cleared(t) && Queue(t) == Queue(s)[1..];
  }

  lemma ReaderElsewhere(s: State, i: nat)
    requires Locks(s) && Contents(s) && ReaderEnabled(s, i)
    requires !s.readers[i].UsesCell()
    ensures Contents(ReaderNext(s, i))
  {
    var t := ReaderNext(s, i);
    assert Cleared(t) == Cleared(s) && Stored(t) == Stored(s) && Queue(t) == Queue(s);
  }

  lemma WriterContents(s: State, i: nat, value: int)
    requires Locks(s) && Permits(s) && Contents(s) && WriterEnabled(s, i, value)
    ensures Contents(WriterNext(s, i, value))
  {
    match s.writers[i] {
      case AtCell => WriterStores(s, i, value);
      case CellWritten => WriterPublishes(s, i, value);
      case _ => WriterElsewhere(s, i, value);
    }
  }

  lemma ReaderContents(s: State, i: nat)
    requires Locks(s) && Permits(s) && Contents(s) && ReaderEnabled(s, i)
    ensures Contents(ReaderNext(s, i))
  {
    match s.readers[i] {
      case AtEntry => ReaderLoads(s, i);
      case EntryRead(_) => ReaderClears(s, i);
      case EntryCleared(_) => ReaderRemoves(s, i);
      case _ => ReaderElsewhere(s, i);
    }
  }

  lemma StepKeepsInv(s: State, a: Action)
    requires Inv(s) && Enabled(s, a)
    ensures Inv(Apply(s, a))
  {
    StepLocks(s, a);
    match a {
      case WriterStep(i, value) =>
        WriterPermits(s, i, value);
        WriterContents(s, i, value);
      case ReaderStep(i) =>
        ReaderPermits(s, i);
        ReaderContents(s, i);
    }
  }

  lemma InitialInv(capacity: nat, writers: nat, readers: nat)
    requires capacity > 0
    ensures Inv(Initial(capacity, writers, readers))
  {
    var s := Initial(capacity, writers, readers);
    TotalConstant(HoldsEmpty, (), s.writers, 0);
    TotalConstant(OwesFull, (), s.writers, 0);
    TotalConstant(HoldsFull, (), s.readers, 0);
    TotalConstant(OwesEmpty, (), s.readers, 0);
  }

  // --- every run ------------------------------------------------------------------------------

  ghost predicate Executable(s: State, acts: seq<Action>)
    decreases |acts|
  {
    acts == [] || (Enabled(s, acts[0]) && Executable(Apply(s, acts[0]), acts[1..]))
  }

  ghost function After(s: State, acts: seq<Action>): State
    requires Executable(s, acts)
    decreases |acts|
  {
    if acts == [] then s else After(Apply(s, acts[0]), acts[1..])
  }

  lemma {:induction false} RunKeepsInv(s: State, acts: seq<Action>)
    requires Inv(s) && Executable(s, acts)
    ensures Inv(After(s, acts))
    ensures |After(s, acts).ring.cells| == |s.ring.cells|
    ensures |After(s, acts).writers| == |s.writers| && |After(s, acts).readers| == |s.readers|
    decreases |acts|
  {
    if acts != [] {
      StepKeepsInv(s, acts[0]);
      RunKeepsInv(Apply(s, acts[0]), acts[1..]);
    }
  }

  ghost predicate Reachable(s: State, capacity: nat, writers: nat, readers: nat) {
    exists acts :: Executable(Initial(capacity, writers, readers), acts)
                   && s == After(Initial(capacity, writers, readers), acts)
  }

  lemma ReachableInv(s: State, capacity: nat, writers: nat, readers: nat)
    requires capacity > 0 && Reachable(s, capacity, writers, readers)
    ensures Inv(s) && |s.ring.cells| == capacity && |s.writers| == writers && |s.readers| == readers
  {
    var acts :| Executable(Initial(capacity, writers, readers), acts)
                && s == After(Initial(capacity, writers, readers), acts);
    InitialInv(capacity, writers, readers);
    RunKeepsInv(Initial(capacity, writers, readers), acts);
  }

  // --- the numbers written are those drawn ----------------------------------------------------

  /** The number stored whose writer has yet to move the write index. */
  ghost function InCell(s: State): seq<int>
    requires s.ring.InBounds()
  {
    if Stored(s) then [s.ring.cells[s.ring.write]] else []
  }

  /** The number drawn in a step, if one is. */
  ghost function DrawnIn(s: State, a: Action): seq<int>
    requires Enabled(s, a)
  {
    if a.WriterStep? && s.writers[a.i].AtCell? then [a.value] else []
  }

  /** The numbers drawn by writers in a run, in order. */
  ghost function Drawn(s: State, acts: seq<Action>): seq<int>
    requires Executable(s, acts)
    decreases |acts|
  {
    if acts == [] then [] else DrawnIn(s, acts[0]) + Drawn(Apply(s, acts[0]), acts[1..])
  }

  lemma DifferentCells(s: State, i: nat, j: nat)
    requires Inv(s) && i < |s.writers| && j < |s.readers|
    requires (s.writers[i].AtCell? || s.writers[i].CellWritten?) && s.readers[j].UsesCell()
    ensures s.ring.write != s.ring.read
  {
    WriterHasRoom(s, i);
    ReaderHasEntry(s, j);
    var r := if Cleared(s) then Restored(s.ring, Queue(s)[0]) else s.ring;
    r.IndicesDiffer(Queue(s));
  }

  lemma WriterDraws(s: State, i: nat, value: int)
    requires WriterEnabled(s, i, value) && Locks(s) && WriterNext(s, i, value).ring.InBounds()
    ensures var t := WriterNext(s, i, value);
            t.produced + InCell(t) == s.produced + InCell(s) + DrawnIn(s, WriterStep(i, value))
  {
    var t := WriterNext(s, i, value);
    match s.writers[i] {
      case AtCell => assert InCell(s) == [] && InCell(t) == [value];
      case CellWritten => assert InCell(s) == [s.ring.cells[s.ring.write]] && InCell(t) == [];
      case WaitingToWrite => assert InCell(s) == [] && InCell(t) == [];
      case FullPosted => assert InCell(s) == [] && InCell(t) == [];
      case _ => assert InCell(t) == InCell(s);
    }
  }

  lemma ReaderKeepsCell(s: State, i: nat)
    requires ReaderEnabled(s, i) && ReaderNext(s, i).ring.InBounds()
    requires Stored(s) && s.readers[i].EntryRead? ==> s.ring.write != s.ring.read
    ensures ReaderNext(s, i).produced == s.produced && InCell(ReaderNext(s, i)) == InCell(s)
  {
  }

  lemma {:induction false} RunDraws(s: State, acts: seq<Action>)
    requires Inv(s) && Executable(s, acts)
    ensures After(s, acts).ring.InBounds()
    ensures After(s, acts).produced + InCell(After(s, acts)) == s.produced + InCell(s) + Drawn(s, acts)
    decreases |acts|
  {
    if acts != [] {
      var t := Apply(s, acts[0]);
      StepKeepsInv(s, acts[0]);
      match acts[0] {
        case WriterStep(i, value) => WriterDraws(s, i, value);
        case ReaderStep(i) =>
          if Stored(s) && s.readers[i].EntryRead? {
            DifferentCells(s, s.writeMutex.value, i);
          }
          ReaderKeepsCell(s, i);
      }
      RunDraws(t, acts[1..]);
      Regroup(s.produced + InCell(s), DrawnIn(s, acts[0]), Drawn(t, acts[1..]));
    }
  }

  lemma Regroup(a: seq<int>, b: seq<int>, c: seq<int>)
    ensures (a + b) + c == a + (b + c)
  {
  }

  /** In every run, the numbers the writers put into the ring are those they drew, in that order; the
      last one may wait for the write index to move. */
  lemma WritersPutInWhatTheyDraw(capacity: nat, writers: nat, readers: nat, acts: seq<Action>)
    requires capacity > 0 && Executable(Initial(capacity, writers, readers), acts)
    ensures var t := After(Initial(capacity, writers, readers), acts);
            t.ring.InBounds() && t.produced + InCell(t) == Drawn(Initial(capacity, writers, readers), acts)
  {
    InitialInv(capacity, writers, readers);
    RunDraws(Initial(capacity, writers, readers), acts);
  }

  /** A writer at its cell can write any number in the range. */
  lemma AnyNumberCanBeDrawn(s: State, capacity: nat, writers: nat, readers: nat, i: nat, value: int)
    requires capacity > 0 && Reachable(s, capacity, writers, readers)
    requires i < |s.writers| && s.writers[i].AtCell?
    ensures Enabled(s, WriterStep(i, value)) <==> InRange(value)
  {
    ReachableInv(s, capacity, writers, readers);
  }

  /** A writer and a reader inside their sections never use the same cell. */
  lemma SectionsUseDifferentCells(s: State, capacity: nat, writers: nat, readers: nat, i: nat, j: nat)
    requires capacity > 0 && Reachable(s, capacity, writers, readers)
    requires i < |s.writers| && j < |s.readers|
    requires (s.writers[i].AtCell? || s.writers[i].CellWritten?) && s.readers[j].UsesCell()
    ensures s.ring.write != s.ring.read
  {
    ReachableInv(s, capacity, writers, readers);
    DifferentCells(s, i, j);
  }

  /** No two writers, and no two readers, are ever inside together. */
  lemma SectionsAreExclusive(s: State, capacity: nat, writers: nat, readers: nat, i: nat, j: nat)
    requires capacity > 0 && Reachable(s, capacity, writers, readers)
    ensures i < |s.writers| && j < |s.writers| && s.writers[i].Inside() && s.writers[j].Inside() ==> i == j
    ensures i < |s.readers| && j < |s.readers| && s.readers[i].Inside() && s.readers[j].Inside() ==> i == j
  {
    ReachableInv(s, capacity, writers, readers);
  }

  /** A writer only ever overwrites an empty cell. */
  lemma WritersOverwriteOnlyEmptyCells(s: State, capacity: nat, writers: nat, readers: nat, i: nat)
    requires capacity > 0 && Reachable(s, capacity, writers, readers)
    requires i < |s.writers| && s.writers[i].AtCell?
    ensures s.ring.InBounds() && s.ring.cells[s.ring.write] == EMPTY_CELL
  {
    ReachableInv(s, capacity, writers, readers);
    WriterHasRoom(s, i);
    StoreContents(s.ring, Cleared(s), Queue(s), 0);
  }

  /** A reader only ever reads a number a writer put there: the oldest one not yet read. */
  lemma ReadersReadTheOldestNumber(s: State, capacity: nat, writers: nat, readers: nat, i: nat)
    requires capacity > 0 && Reachable(s, capacity, writers, readers)
    requires i < |s.readers| && s.readers[i].AtEntry?
    ensures s.ring.InBounds() && |s.consumed| < |s.produced|
    ensures s.ring.cells[s.ring.read] == s.produced[|s.consumed|]
    ensures InRange(s.ring.cells[s.ring.read])
  {
    ReachableInv(s, capacity, writers, readers);
    ReaderHasEntry(s, i);
    s.ring.DropHolds(Queue(s));
  }

  /** What the readers took so far is what the writers wrote, in that order, and every number lies
      in the range the writers draw from. */
  lemma NumbersAreReadInOrder(s: State, capacity: nat, writers: nat, readers: nat)
    requires capacity > 0 && Reachable(s, capacity, writers, readers)
    ensures s.consumed <= s.produced
    ensures |s.produced| - |s.consumed| <= capacity
    ensures forall v | v in s.consumed :: InRange(v)
  {
    ReachableInv(s, capacity, writers, readers);
  }

  /** With a writer and a reader, some process can always take a step. */
  lemma NeverDeadlocked(s: State, capacity: nat, writers: nat, readers: nat)
    requires capacity > 0 && writers > 0 && readers > 0 && Reachable(s, capacity, writers, readers)
    ensures exists a :: Enabled(s, a)
  {
    ReachableInv(s, capacity, writers, readers);
    if s.writeMutex.Some? || exists i :: 0 <= i < writers && s.writers[i] == WaitingToWrite {
      var i: nat :| i < writers && if s.writeMutex.Some? then s.writers[i].Inside() else s.writers[i] == WaitingToWrite;
      assert Enabled(s, WriterStep(i, 0));
    } else if s.readMutex.Some? || exists i :: 0 <= i < readers && s.readers[i] == WaitingToRead {
      var i: nat :| i < readers && if s.readMutex.Some? then s.readers[i].Inside() else s.readers[i] == WaitingToRead;
      assert Enabled(s, ReaderStep(i));
    } else {
      AllWaitingIsEnabled(s);
      if s.empty > 0 {
        assert Enabled(s, WriterStep(0, 0));
      } else {
        assert Enabled(s, ReaderStep(0));
      }
    }
  }

  lemma AllWaitingIsEnabled(s: State)
    requires Permits(s) && |s.ring.cells| > 0
    requires forall i | 0 <= i < |s.writers| :: s.writers[i].WaitingForEmpty?
    requires forall i | 0 <= i < |s.readers| :: s.readers[i].WaitingForFull?
    ensures s.empty + s.full == |s.ring.cells|
  {
    TotalConstant(HoldsEmpty, (), s.writers, 0);
    TotalConstant(OwesFull, (), s.writers, 0);
    TotalConstant(HoldsFull, (), s.readers, 0);
    TotalConstant(OwesEmpty, (), s.readers, 0);
  }
}
