/**
 The log queue of os_ihw3/mark-10: a bounded buffer whose enqueue never blocks. It takes a free
 permit, tries the mutex, and gives the permit back if the mutex is taken. One step is one
 semaphore operation, one mutex operation, or one access to the queue.
 */
module LogsQueue {
  import opened Prelude
  import opened Ring
  import opened Sums

  type Log = string

  /** A thread between calls, or by what it does next inside `nonblocking_enqueue` or `dequeue`. */
  datatype Thread =
    | Producing
    | TryingLock(log: Log) | ReturningPermit
    | Copying(log: Log) | MovingWrite | Growing | PostingAdded | UnlockingIn
    | Consuming
    | Locking
    | Reading | MovingRead(log: Log) | Shrinking(log: Log) | PostingFree(log: Log) | UnlockingOut(log: Log)
  {
    predicate Inside() {
      || Copying? || MovingWrite? || Growing? || PostingAdded? || UnlockingIn?
      || Reading? || MovingRead? || Shrinking? || PostingFree? || UnlockingOut?
    }

    predicate Enqueues() {
      || Producing? || TryingLock? || ReturningPermit?
      || Copying? || MovingWrite? || Growing? || PostingAdded? || UnlockingIn?
    }
  }

  /** `accepted` and `delivered` record the logs that passed the write and the read index. */
  datatype State = State(
    ring: Ring<Log>,
    size: nat,
    free: nat,
    added: nat,
    mutex: Option<nat>,
    threads: seq<Thread>,
    accepted: seq<Log>,
    delivered: seq<Log>)

  /** `log` is what a producing thread offers; all other steps ignore it. */
  datatype Action = Step(i: nat, log: Log)

  predicate Enabled(s: State, a: Action) {
    && a.i < |s.threads|
    && s.ring.InBounds()
    && match s.threads[a.i]
       case Consuming => s.added > 0
       case Locking => s.mutex == None
       case _ => true
  }

  function Next(s: State, i: nat, thread: Thread): State
    requires i < |s.threads|
  {
    s.(threads := s.threads[i := thread])
  }

  /** Each `assert` on the size is left to the invariant: `Shrinking` on an empty queue would be a
      failed assertion. */
  function Apply(s: State, a: Action): State
    requires Enabled(s, a)
  {
    var i := a.i;
    match s.threads[i]
    case Producing => if s.free == 0 then s else Next(s.(free := s.free - 1), i, TryingLock(a.log))
    case TryingLock(log) =>
      if s.mutex.Some? then Next(s, i, ReturningPermit) else Next(s.(mutex := Some(i)), i, Copying(log))
    case ReturningPermit => Next(s.(free := s.free + 1), i, Producing)
    case Copying(log) => Next(s.(ring := s.ring.Store(log)), i, MovingWrite)
    case MovingWrite =>
      Next(s.(ring := s.ring.Advance(), accepted := s.accepted + [s.ring.cells[s.ring.write]]), i, Growing)
    case Growing => Next(s.(size := s.size + 1), i, PostingAdded)
    case PostingAdded => Next(s.(added := s.added + 1), i, UnlockingIn)
    case UnlockingIn => Next(s.(mutex := None), i, Producing)
    case Consuming => Next(s.(added := s.added - 1), i, Locking)
    case Locking => Next(s.(mutex := Some(i)), i, Reading)
    case Reading => Next(s, i, MovingRead(s.ring.cells[s.ring.read]))
    case MovingRead(log) => Next(s.(ring := s.ring.Drop(), delivered := s.delivered + [log]), i, Shrinking(log))
    case Shrinking(log) => Next(s.(size := if s.size > 0 then s.size - 1 else 0), i, PostingFree(log))
    case PostingFree(log) => Next(s.(free := s.free + 1), i, UnlockingOut(log))
    case UnlockingOut(_) => Next(s.(mutex := None), i, Consuming)
  }

  function Initial(capacity: nat, blank: Log, producers: nat, consumers: nat): State {
    State(Ring(seq(capacity, _ => blank), 0, 0), 0, capacity, 0, None,
          seq(producers, _ => Producing) + seq(consumers, _ => Consuming), [], [])
  }

  // --- the invariant --------------------------------------------------------------------------

  /** A free permit in the hands of a thread: its cell is neither free nor counted in the size. */
  ghost function FreeInHand(k: (), t: Thread): int {
    if t.TryingLock? || t.ReturningPermit? || t.Copying? || t.MovingWrite? || t.Growing? || t.PostingFree? then 1 else 0
  }

  /** An added permit in the hands of a thread: its log still counts in the size. */
  ghost function AddedInHand(k: (), t: Thread): int {
    if t.PostingAdded? || t.Locking? || t.Reading? || t.MovingRead? || t.Shrinking? then 1 else 0
  }

  /** The difference between the entries of the ring and the size. */
  ghost function Uncounted(k: (), t: Thread): int {
    if t.Growing? then 1 else if t.Shrinking? then -1 else 0
  }

  ghost predicate Locks(s: State) {
    && (forall i {:trigger s.threads[i]} | 0 <= i < |s.threads| :: s.threads[i].Inside() <==> s.mutex == Some(i))
    && (s.mutex.Some? ==> s.mutex.value < |s.threads|)
  }

  ghost predicate Permits(s: State) {
    && s.free + s.size + Total(FreeInHand, (), s.threads) == |s.ring.cells|
    && s.added + Total(AddedInHand, (), s.threads) == s.size
    && |s.accepted| - |s.delivered| == s.size + Total(Uncounted, (), s.threads)
  }

  ghost function Contents(s: State): seq<Log> {
    if |s.delivered| <= |s.accepted| then s.accepted[|s.delivered|..] else []
  }

  ghost predicate Ordered(s: State) {
    && s.delivered <= s.accepted
    && s.ring.Holds(Contents(s))
    && (forall i {:trigger s.threads[i]} | 0 <= i < |s.threads| && s.threads[i].MovingRead? ::
          Contents(s) != [] && s.threads[i].log == Contents(s)[0])
  }

  ghost predicate Inv(s: State) {
    Locks(s) && Permits(s) && Ordered(s)
  }

  /** All sums over threads are non-negative but `Uncounted`, which only the mutex holder can move. */
  lemma {:induction false} UncountedIsTheHolders(threads: seq<Thread>, i: nat)
    requires i < |threads| && forall j | 0 <= j < |threads| && j != i :: !threads[j].Inside()
    ensures Total(Uncounted, (), threads) == Uncounted((), threads[i])
  {
    if i == 0 {
      TotalConstant(Uncounted, (), threads[1..], 0);
    } else {
      UncountedIsTheHolders(threads[1..], i - 1);
    }
  }

  /** A thread at the ring: how many entries there are. */
  lemma EntriesAtTheRing(s: State, i: nat)
    requires Locks(s) && Permits(s) && i < |s.threads| && s.threads[i].Inside()
    ensures s.threads[i].Copying? || s.threads[i].MovingWrite? ==> |s.accepted| - |s.delivered| == s.size < |s.ring.cells|
    ensures s.threads[i].Reading? || s.threads[i].MovingRead? ==> |s.accepted| - |s.delivered| == s.size > 0
    ensures s.threads[i].Growing? ==> s.size < |s.ring.cells|
    ensures s.threads[i].Shrinking? ==> s.size > 0
  {
    UncountedIsTheHolders(s.threads, i);
    TotalMember(FreeInHand, (), s.threads, i);
    TotalMember(AddedInHand, (), s.threads, i);
  }

  lemma StepLocks(s: State, a: Action)
    requires Locks(s) && Enabled(s, a)
    ensures Locks(Apply(s, a))
  {
  }

  lemma EnqueuePermits(s: State, a: Action)
    requires Permits(s) && Enabled(s, a) && s.threads[a.i].Enqueues()
    ensures Permits(Apply(s, a))
  {
    var t := Apply(s, a).threads[a.i];
    TotalUpdate(FreeInHand, (), s.threads, a.i, t);
    TotalUpdate(AddedInHand, (), s.threads, a.i, t);
    TotalUpdate(Uncounted, (), s.threads, a.i, t);
  }

  lemma DequeuePermits(s: State, a: Action)
    requires Permits(s) && Enabled(s, a) && !s.threads[a.i].Enqueues()
    requires s.threads[a.i].Shrinking? ==> s.size > 0
    ensures Permits(Apply(s, a))
  {
    var t := Apply(s, a).threads[a.i];
    TotalUpdate(FreeInHand, (), s.threads, a.i, t);
    TotalUpdate(AddedInHand, (), s.threads, a.i, t);
    TotalUpdate(Uncounted, (), s.threads, a.i, t);
  }

  lemma CopyingOrdered(s: State, a: Action)
    requires Inv(s) && Enabled(s, a) && s.threads[a.i].Copying?
    ensures Ordered(Apply(s, a))
  {
    EntriesAtTheRing(s, a.i);
    s.ring.StoreHolds(Contents(s), s.threads[a.i].log);
    assert Contents(Apply(s, a)) == Contents(s);
  }

  lemma ReadingOrdered(s: State, a: Action)
    requires Inv(s) && Enabled(s, a) && s.threads[a.i].Reading?
    ensures Ordered(Apply(s, a))
  {
    EntriesAtTheRing(s, a.i);
    s.ring.DropHolds(Contents(s));
    assert Contents(Apply(s, a)) == Contents(s);
  }

  /** Does the thread touch the ring or the indices? */
  predicate AtRing(t: Thread) {
    t.Copying? || t.MovingWrite? || t.Reading? || t.MovingRead?
  }

  lemma SameQueueOrdered(s: State, t: State)
    requires Ordered(s) && t.ring == s.ring && t.accepted == s.accepted && t.delivered == s.delivered
    requires |t.threads| == |s.threads|
    requires forall j | 0 <= j < |t.threads| && t.threads[j].MovingRead? :: t.threads[j] == s.threads[j]
    ensures Ordered(t)
  {
  }

  lemma QuietOrdered(s: State, a: Action)
    requires Ordered(s) && Enabled(s, a) && !AtRing(s.threads[a.i])
    ensures Ordered(Apply(s, a))
  {
    SameQueueOrdered(s, Apply(s, a));
  }

  lemma OneMoreAccepted(accepted: seq<Log>, delivered: seq<Log>, log: Log)
    requires delivered <= accepted
    ensures delivered <= accepted + [log]
    ensures (accepted + [log])[|delivered|..] == accepted[|delivered|..] + [log]
  {
  }

  lemma OneMoreDelivered(accepted: seq<Log>, delivered: seq<Log>)
    requires delivered <= accepted && |delivered| < |accepted|
    ensures delivered + [accepted[|delivered|]] <= accepted
    ensures accepted[|delivered| + 1..] == accepted[|delivered|..][1..]
  {
  }

  /** While one thread is inside, no other is about to move the read index. */
  lemma NoOtherReader(s: State, i: nat)
    requires Locks(s) && i < |s.threads| && s.threads[i].Inside()
    ensures forall j | 0 <= j < |s.threads| && j != i :: !s.threads[j].MovingRead?
  {
  }

  lemma PublishOrdered(s: State, a: Action)
    requires Inv(s) && Enabled(s, a) && s.threads[a.i].MovingWrite?
    ensures Ordered(Apply(s, a))
  {
    EntriesAtTheRing(s, a.i);
    NoOtherReader(s, a.i);
    s.ring.AdvanceHolds(Contents(s));
    OneMoreAccepted(s.accepted, s.delivered, s.ring.cells[s.ring.write]);
  }

  lemma RemoveOrdered(s: State, a: Action)
    requires Locks(s) && Ordered(s) && Enabled(s, a) && s.threads[a.i].MovingRead?
    ensures Ordered(Apply(s, a))
  {
    NoOtherReader(s, a.i);
    s.ring.DropHolds(Contents(s));
    OneMoreDelivered(s.accepted, s.delivered);
  }

  lemma StepKeepsInv(s: State, a: Action)
    requires Inv(s) && Enabled(s, a)
    ensures Inv(Apply(s, a))
  {
    StepLocks(s, a);
    if s.threads[a.i].Shrinking? {
      EntriesAtTheRing(s, a.i);
    }
    if s.threads[a.i].Enqueues() {
      EnqueuePermits(s, a);
    } else {
      DequeuePermits(s, a);
    }
    if s.threads[a.i].MovingWrite? {
      PublishOrdered(s, a);
    } else if s.threads[a.i].MovingRead? {
      RemoveOrdered(s, a);
    } else if s.threads[a.i].Copying? {
      CopyingOrdered(s, a);
    } else if s.threads[a.i].Reading? {
      ReadingOrdered(s, a);
    } else {
      QuietOrdered(s, a);
    }
  }

  lemma InitialInv(capacity: nat, blank: Log, producers: nat, consumers: nat)
    requires capacity > 0
    ensures Inv(Initial(capacity, blank, producers, consumers))
  {
    var s := Initial(capacity, blank, producers, consumers);
    TotalConstant(FreeInHand, (), s.threads, 0);
    TotalConstant(AddedInHand, (), s.threads, 0);
    TotalConstant(Uncounted, (), s.threads, 0);
  }

  // --- every run ------------------------------------------------------------------------------

  ghost predicate Executable(s: State, acts: seq<Action>)
    decreases |acts|
  {
    acts == [] || (Enabled(s, acts[0]) && Executable(Apply(s, acts[0]), acts[1..]))
  }

  ghost function After(s: State, acts: seq<Action>): State
    requires Executable(s, acts)
    decreases |acts|
  {
    if acts == [] then s else After(Apply(s, acts[0]), acts[1..])
  }

  lemma {:induction false} RunKeepsInv(s: State, acts: seq<Action>)
    requires Inv(s) && Executable(s, acts)
    ensures Inv(After(s, acts)) && |After(s, acts).ring.cells| == |s.ring.cells|
    decreases |acts|
  {
    if acts != [] {
      StepKeepsInv(s, acts[0]);
      RunKeepsInv(Apply(s, acts[0]), acts[1..]);
    }
  }

  ghost predicate Reachable(s: State, capacity: nat) {
    exists blank, producers, consumers, acts ::
      Executable(Initial(capacity, blank, producers, consumers), acts)
      && s == After(Initial(capacity, blank, producers, consumers), acts)
  }

  lemma ReachableInv(s: State, capacity: nat)
    requires capacity > 0 && Reachable(s, capacity)
    ensures Inv(s) && |s.ring.cells| == capacity
  {
    var blank, producers, consumers, acts :|
      Executable(Initial(capacity, blank, producers, consumers), acts)
      && s == After(Initial(capacity, blank, producers, consumers), acts);
    InitialInv(capacity, blank, producers, consumers);
    RunKeepsInv(Initial(capacity, blank, producers, consumers), acts);
  }

  /** Free permits, the size, and the permits held in the middle of an operation make up the capacity. */
  lemma PermitsAddUp(s: State, capacity: nat)
    requires capacity > 0 && Reachable(s, capacity)
    ensures s.free + s.size + Total(FreeInHand, (), s.threads) == capacity
    ensures s.added + Total(AddedInHand, (), s.threads) == s.size
  {
    ReachableInv(s, capacity);
  }

  /** Both assertions on the size hold whenever they are evaluated. */
  lemma SizeAssertionsHold(s: State, capacity: nat, i: nat)
    requires capacity > 0 && Reachable(s, capacity) && i < |s.threads|
    ensures s.threads[i].Growing? ==> s.size < capacity
    ensures s.threads[i].Shrinking? ==> s.size > 0
  {
    ReachableInv(s, capacity);
    if s.threads[i].Inside() {
      EntriesAtTheRing(s, i);
    }
  }

  /** Logs come out in the order they went in, and a thread that has read a log has the oldest one. */
  lemma LogsComeOutInOrder(s: State, capacity: nat)
    requires capacity > 0 && Reachable(s, capacity)
    ensures s.delivered <= s.accepted && |s.accepted| - |s.delivered| <= capacity
    ensures forall i | 0 <= i < |s.threads| && s.threads[i].MovingRead? ::
              |s.delivered| < |s.accepted| && s.threads[i].log == s.accepted[|s.delivered|]
  {
    ReachableInv(s, capacity);
  }

  // --- enqueues that fail ---------------------------------------------------------------------

  /** Between calls, or in a call that has not got the mutex. */
  predicate WithoutMutex(t: Thread) {
    t.Producing? || t.TryingLock? || t.ReturningPermit?
  }

  /** Thread `i` does not get the mutex in the whole of the run. */
  ghost predicate NeverGetsMutex(s: State, acts: seq<Action>, i: nat)
    requires Executable(s, acts)
    decreases |acts|
  {
    && i < |s.threads| && WithoutMutex(s.threads[i])
    && (acts != [] ==> NeverGetsMutex(Apply(s, acts[0]), acts[1..], i))
  }

  /** No step thread `i` takes in the run changes the queue. */
  ghost predicate LeavesQueueAlone(s: State, acts: seq<Action>, i: nat)
    requires Executable(s, acts)
    decreases |acts|
  {
    acts == [] ||
    var t := Apply(s, acts[0]);
    && (acts[0].i == i ==> t == s.(free := t.free, threads := t.threads))
    && LeavesQueueAlone(t, acts[1..], i)
  }

  /** The free permits thread `i` gives, less those it takes, in the run. */
  ghost function FreedBy(s: State, acts: seq<Action>, i: nat): int
    requires Executable(s, acts)
    decreases |acts|
  {
    if acts == [] then 0
    else
      var t := Apply(s, acts[0]);
      (if acts[0].i == i then t.free - s.free else 0) + FreedBy(t, acts[1..], i)
  }

  lemma OwnStepWithoutMutex(s: State, a: Action)
    requires Enabled(s, a) && WithoutMutex(s.threads[a.i]) && WithoutMutex(Apply(s, a).threads[a.i])
    ensures var t := Apply(s, a);
            && t == s.(free := t.free, threads := t.threads)
            && t.free - s.free == FreeInHand((), s.threads[a.i]) - FreeInHand((), t.threads[a.i])
  {
  }

  /**
   Whatever the other threads do meanwhile, calls of thread `i` that fail leave the queue alone, and
   they give back every permit they take: between two moments outside its calls, as many as it took.
   */
  lemma {:induction false} FailedEnqueueChangesNothing(s: State, acts: seq<Action>, i: nat)
    requires Executable(s, acts) && NeverGetsMutex(s, acts, i)
    ensures LeavesQueueAlone(s, acts, i)
    ensures i < |After(s, acts).threads|
    ensures FreedBy(s, acts, i) == FreeInHand((), s.threads[i]) - FreeInHand((), After(s, acts).threads[i])
    ensures s.threads[i].Producing? && After(s, acts).threads[i].Producing? ==> FreedBy(s, acts, i) == 0
    decreases |acts|
  {
    if acts != [] {
      if acts[0].i == i {
        OwnStepWithoutMutex(s, acts[0]);
      }
      FailedEnqueueChangesNothing(Apply(s, acts[0]), acts[1..], i);
    }
  }

  // --- enqueues end ---------------------------------------------------------------------------

  /** The steps a call has left. */
  function CallLeft(t: Thread): nat {
    match t
    case Producing => 0
    case Consuming => 0
    case TryingLock(_) => 6
    case Copying(_) => 5
    case MovingWrite => 4
    case Growing => 3
    case PostingAdded => 2
    case UnlockingIn => 1
    case ReturningPermit => 1
    case Locking => 6
    case Reading => 5
    case MovingRead(_) => 4
    case Shrinking(_) => 3
    case PostingFree(_) => 2
    case UnlockingOut(_) => 1
  }

  /** Thread `i` is in the middle of one enqueue before each step of the run. */
  ghost predicate StaysInCall(s: State, acts: seq<Action>, i: nat)
    requires Executable(s, acts)
    decreases |acts|
  {
    acts != [] ==>
      && i < |s.threads| && CallLeft(s.threads[i]) > 0
      && StaysInCall(Apply(s, acts[0]), acts[1..], i)
  }

  ghost function OwnSteps(acts: seq<Action>, i: nat): nat {
    if acts == [] then 0 else (if acts[0].i == i then 1 else 0) + OwnSteps(acts[1..], i)
  }

  lemma OneStepLess(s: State, a: Action, i: nat)
    requires Enabled(s, a) && i < |s.threads| && CallLeft(s.threads[i]) > 0
    ensures |Apply(s, a).threads| == |s.threads|
    ensures CallLeft(Apply(s, a).threads[i]) + (if a.i == i then 1 else 0) <= CallLeft(s.threads[i])
  {
  }

  lemma {:induction false} OwnStepsCount(s: State, acts: seq<Action>, i: nat)
    requires Executable(s, acts) && StaysInCall(s, acts, i) && i < |s.threads|
    ensures i < |After(s, acts).threads|
    ensures OwnSteps(acts, i) + CallLeft(After(s, acts).threads[i]) <= CallLeft(s.threads[i])
    decreases |acts|
  {
    if acts != [] {
      OneStepLess(s, acts[0], i);
      OwnStepsCount(Apply(s, acts[0]), acts[1..], i);
    }
  }

  /** An enqueue never waits: whatever the others do, its next step is possible, and it has at most
      six after the first. */
  lemma EnqueueIsWaitFree(s: State, capacity: nat, acts: seq<Action>, i: nat, log: Log)
    requires capacity > 0 && Reachable(s, capacity) && i < |s.threads| && s.threads[i].Enqueues()
    requires Executable(s, acts) && StaysInCall(s, acts, i)
    ensures Enabled(After(s, acts), Step(i, log))
    ensures OwnSteps(acts, i) <= 6
  {
    ReachableInv(s, capacity);
    RunKeepsInv(s, acts);
    OwnStepsCount(s, acts, i);
    StaysEnqueuing(s, acts, i);
  }

  lemma {:induction false} StaysEnqueuing(s: State, acts: seq<Action>, i: nat)
    requires Executable(s, acts) && i < |s.threads| && s.threads[i].Enqueues()
    ensures i < |After(s, acts).threads| && After(s, acts).threads[i].Enqueues()
    decreases |acts|
  {
    if acts != [] {
      StaysEnqueuing(Apply(s, acts[0]), acts[1..], i);
    }
  }

  lemma HolderIsInside(s: State)
    requires Locks(s)
    ensures s.mutex.Some? ==> exists i :: 0 <= i < |s.threads| && s.threads[i].Inside()
  {
    if s.mutex.Some? {
      assert s.threads[s.mutex.value].Inside();
    }
  }

  /** Between calls no permit is missing, however many enqueues failed: a producer finds every cell
      that holds no log, and a consumer every log. */
  lemma NoPermitIsLost(s: State, capacity: nat)
    requires capacity > 0 && Reachable(s, capacity)
    requires forall i | 0 <= i < |s.threads| :: s.threads[i].Producing? || s.threads[i].Consuming?
    ensures s.free + s.size == capacity && s.added == s.size == |s.accepted| - |s.delivered| && s.mutex == None
  {
    ReachableInv(s, capacity);
    TotalConstant(FreeInHand, (), s.threads, 0);
    TotalConstant(AddedInHand, (), s.threads, 0);
    TotalConstant(Uncounted, (), s.threads, 0);
    HolderIsInside(s);
  }

  // --- one call without interference ----------------------------------------------------------

  /** A single thread takes its steps until it is back outside its call. */
  function Finish(s: State): State
    requires s.ring.InBounds() && |s.threads| == 1 && (s.threads[0].Locking? ==> s.mutex.None?)
    decreases CallLeft(s.threads[0])
  {
    if CallLeft(s.threads[0]) == 0 then s else Finish(Apply(s, Step(0, "")))
  }

  /** One whole call of a thread that is alone. */
  function Call(s: State, log: Log): State
    requires s.ring.InBounds() && |s.threads| == 1 && CallLeft(s.threads[0]) == 0
    requires s.threads[0].Consuming? ==> s.added > 0 && s.mutex.None?
  {
    Finish(Apply(s, Step(0, log)))
  }

  /** The queue after an enqueue: unchanged without a free permit or the mutex. */
  function Enqueued(s: State, log: Log): State
    requires s.ring.InBounds()
  {
    if s.free == 0 || s.mutex.Some? then s
    else
      s.(ring := s.ring.Put(log), size := s.size + 1, free := s.free - 1, added := s.added + 1,
         accepted := s.accepted + [log])
  }

  /** The queue after a dequeue. */
  function Dequeued(s: State): State
    requires s.ring.InBounds() && s.added > 0 && s.size > 0
  {
    s.(ring := s.ring.Drop(), size := s.size - 1, free := s.free + 1, added := s.added - 1,
       delivered := s.delivered + [s.ring.cells[s.ring.read]])
  }

  /** One step of a call. */
  lemma FinishStep(s: State, t: State)
    requires s.ring.InBounds() && |s.threads| == 1 && CallLeft(s.threads[0]) > 0
    requires s.threads[0].Locking? ==> s.mutex.None?
    requires var u := Apply(s, Step(0, "")); t.threads == [u.threads[0]] && u == t.(threads := u.threads)
    ensures t.ring.InBounds() && Finish(s) == Finish(t)
  {
    assert Apply(s, Step(0, "")).threads == t.threads;
  }

  /** The last step of either call. */
  lemma Unlocks(s: State)
    requires |s.threads| == 1 && (s.threads[0].UnlockingIn? || s.threads[0].UnlockingOut?) && s.ring.InBounds()
    ensures Finish(s) == s.(mutex := None, threads := [if s.threads[0].UnlockingIn? then Producing else Consuming])
  {
    FinishStep(s, s.(mutex := None, threads := [if s.threads[0].UnlockingIn? then Producing else Consuming]));
  }

  /** The permit before that. */
  lemma EnqueuePosts(s: State)
    requires s.threads == [PostingAdded] && s.ring.InBounds()
    ensures Finish(s) == s.(added := s.added + 1, mutex := None, threads := [Producing])
  {
    var t := s.(added := s.added + 1, threads := [UnlockingIn]);
    FinishStep(s, t);
    Unlocks(t);
  }

  /** The size before that. */
  lemma EnqueueLeaves(s: State)
    requires s.threads == [Growing] && s.ring.InBounds()
    ensures Finish(s) == s.(size := s.size + 1, added := s.added + 1, mutex := None, threads := [Producing])
  {
    var t := s.(size := s.size + 1, threads := [PostingAdded]);
    FinishStep(s, t);
    EnqueuePosts(t);
  }

  /** The cell and the index before that. */
  lemma EnqueueWrites(s: State, log: Log)
    requires s.threads == [Copying(log)] && s.ring.InBounds()
    ensures var t := s.(ring := s.ring.Put(log), accepted := s.accepted + [log], threads := [Growing]);
            t.ring.InBounds() && Finish(s) == Finish(t)
  {
    WrapMod(s.ring.write + 1, |s.ring.cells|);
    var t := s.(ring := s.ring.Store(log), threads := [MovingWrite]);
    FinishStep(s, t);
    FinishStep(t, t.(ring := s.ring.Put(log), accepted := s.accepted + [log], threads := [Growing]));
  }

  /** A call of `nonblocking_enqueue` without interference. */
  lemma EnqueueAlone(s: State, log: Log)
    requires s.threads == [Producing] && s.ring.InBounds()
    ensures Call(s, log) == Enqueued(s, log)
  {
    if s.free > 0 {
      var t := s.(free := s.free - 1, threads := [TryingLock(log)]);
      assert s.threads[0 := TryingLock(log)] == [TryingLock(log)];
      if s.mutex.Some? {
        var u := t.(threads := [ReturningPermit]);
        FinishStep(t, u);
        FinishStep(u, s);
      } else {
        var u := t.(mutex := Some(0), threads := [Copying(log)]);
        FinishStep(t, u);
        EnqueueWrites(u, log);
        EnqueueLeaves(u.(ring := s.ring.Put(log), accepted := s.accepted + [log], threads := [Growing]));
      }
    }
  }

  lemma DequeuePosts(s: State, log: Log)
    requires s.threads == [PostingFree(log)] && s.ring.InBounds()
    ensures Finish(s) == s.(free := s.free + 1, mutex := None, threads := [Consuming])
  {
    var t := s.(free := s.free + 1, threads := [UnlockingOut(log)]);
    FinishStep(s, t);
    Unlocks(t);
  }

  lemma DequeueLeaves(s: State, log: Log)
    requires s.threads == [Shrinking(log)] && s.ring.InBounds() && s.size > 0
    ensures Finish(s) == s.(size := s.size - 1, free := s.free + 1, mutex := None, threads := [Consuming])
  {
    var t := s.(size := s.size - 1, threads := [PostingFree(log)]);
    FinishStep(s, t);
    DequeuePosts(t, log);
  }

  lemma DequeueReads(s: State)
    requires s.threads == [Reading] && s.ring.InBounds()
    ensures var log := s.ring.cells[s.ring.read];
            var t := s.(ring := s.ring.Drop(), delivered := s.delivered + [log], threads := [Shrinking(log)]);
            t.ring.InBounds() && Finish(s) == Finish(t)
  {
    WrapMod(s.ring.read + 1, |s.ring.cells|);
    var log := s.ring.cells[s.ring.read];
    var t := s.(threads := [MovingRead(log)]);
    FinishStep(s, t);
    FinishStep(t, t.(ring := s.ring.Drop(), delivered := s.delivered + [log], threads := [Shrinking(log)]));
  }

  /** A dequeue without interference. */
  lemma DequeueAlone(s: State)
    requires s.threads == [Consuming] && s.ring.InBounds() && s.added > 0 && s.size > 0 && s.mutex.None?
    ensures Call(s, "") == Dequeued(s)
  {
    var log := s.ring.cells[s.ring.read];
    var t := s.(added := s.added - 1, threads := [Locking]);
    var u := t.(mutex := Some(0), threads := [Reading]);
    assert s.threads[0 := Locking] == [Locking];
    FinishStep(t, u);
    DequeueReads(u);
    DequeueLeaves(u.(ring := s.ring.Drop(), delivered := s.delivered + [log], threads := [Shrinking(log)]), log);
  }

  /** Nobody is inside: ring, size and permits agree. */
  ghost predicate AtRest(s: State) {
    && s.ring.Holds(Contents(s))
    && s.delivered <= s.accepted
    && s.size == |Contents(s)|
    && s.free + s.size <= |s.ring.cells|
    && s.added <= s.size
  }

  lemma EnqueuedRests(s: State, log: Log)
    requires AtRest(s) && s.free > 0 && s.mutex.None?
    ensures AtRest(Enqueued(s, log)) && Contents(Enqueued(s, log)) == Contents(s) + [log]
  {
    s.ring.PutHolds(Contents(s), log);
    OneMoreAccepted(s.accepted, s.delivered, log);
  }

  lemma DequeuedRests(s: State)
    requires AtRest(s) && s.added > 0
    ensures s.size > 0 && AtRest(Dequeued(s))
    ensures [s.ring.cells[s.ring.read]] + Contents(Dequeued(s)) == Contents(s)
  {
    s.ring.DropHolds(Contents(s));
    OneMoreDelivered(s.accepted, s.delivered);
    assert Contents(Dequeued(s)) == Contents(s)[1..];
  }

  // --- the queue in place ---------------------------------------------------------------------

  class LogsQueue {
    const logs: array<Log>
    var size: nat
    var readIndex: nat
    var writeIndex: nat
    var addedElemsSem: nat
    var freeElemsSem: nat
    /** Some other thread is inside: the queue may be in the middle of an operation. */
    var locked: bool
    ghost var accepted: seq<Log>
    ghost var delivered: seq<Log>

    /** The queue as the calling thread finds it; `EnqueueAlone` and `DequeueAlone` add that thread. */
    ghost function View(): State
      reads this, logs
    {
      State(Ring(logs[..], readIndex, writeIndex), size, freeElemsSem, addedElemsSem,
            if locked then Some(1) else None, [], accepted, delivered)
    }

    /** While another thread is inside, nothing but the bounds of the indices can be relied on. */
    ghost predicate Valid()
      reads this, logs
    {
      && readIndex < logs.Length && writeIndex < logs.Length
      && (!locked ==> AtRest(View()))
    }

    constructor (capacity: nat, blank: Log)
      requires capacity > 0
      ensures Valid() && fresh(logs) && logs.Length == capacity && accepted == [] && delivered == [] && !locked
      ensures freeElemsSem == capacity && addedElemsSem == 0
    {
      logs := new Log[capacity](_ => blank);
      size, readIndex, writeIndex, addedElemsSem, freeElemsSem, locked := 0, 0, 0, 0, capacity, false;
      accepted, delivered := [], [];
      new;
      WrapMod(0, capacity);
    }

    /** Succeeds exactly when there is a free permit and nobody is inside; else nothing changes. The
        method does what the steps of one call do, by `EnqueueAlone`. */
    method NonblockingEnqueue(log: Log) returns (ok: bool)
      requires Valid()
      modifies this, logs
      ensures Valid()
      ensures ok <==> old(freeElemsSem) > 0 && !old(locked)
      ensures View() == Enqueued(old(View()), log)
      ensures ok ==> Contents(View()) == old(Contents(View())) + [log]
      ensures !ok ==> View() == old(View())
    {
      if freeElemsSem == 0 {
        return false;
      }
      freeElemsSem := freeElemsSem - 1;
      if locked {
        freeElemsSem := freeElemsSem + 1;
        return false;
      }
      EnqueuedRests(old(View()), log);
      assert size < logs.Length;
      Append(log);
      ok := true;
    }

    /** The section of an enqueue, with its permit already taken. */
    method Append(log: Log)
      requires readIndex < logs.Length && writeIndex < logs.Length
      modifies this, logs
      ensures View() == old(View()).(
                ring := old(View()).ring.Put(log), size := old(size) + 1, added := old(addedElemsSem) + 1,
                accepted := old(accepted) + [log])
    {
      ghost var r := View().ring;
      logs[writeIndex] := log;
      assert logs[..] == r.Store(log).cells;
      writeIndex := (writeIndex + 1) % logs.Length;
      size := size + 1;
      accepted := accepted + [log];
      addedElemsSem := addedElemsSem + 1;
    }

    /** With an added permit and the mutex at hand: the oldest log leaves the queue. By `DequeueAlone`
        this is what the steps of one call do. */
    method Dequeue() returns (log: Log)
      requires Valid() && addedElemsSem > 0 && !locked
      modifies this
      ensures Valid() && [log] + Contents(View()) == old(Contents(View()))
      ensures old(size) > 0 && View() == Dequeued(old(View()))
    {
      DequeuedRests(View());
      addedElemsSem := addedElemsSem - 1;
      log := RemoveOldest();
      freeElemsSem := freeElemsSem + 1;
    }

    /** The section of a dequeue, with its permit already taken. */
    method RemoveOldest() returns (log: Log)
      requires readIndex < logs.Length && writeIndex < logs.Length && size > 0
      modifies this
      ensures log == old(logs[readIndex])
      ensures View() == old(View()).(
                ring := old(View()).ring.Drop(), size := old(size) - 1, delivered := old(delivered) + [log])
    {
      log := logs[readIndex];
      readIndex := (readIndex + 1) % logs.Length;
      assert size > 0;
      size := size - 1;
      delivered := delivered + [log];
    }
  }
}
