/**
 The broker of os_ihw3/mark-4-5 over time: new workers are accepted while the poller goes through
 the three stages. Whatever the sockets answer is part of the step.
 */
module Poller {
  import opened PinsQueue
  import opened Broker
  import opened Prelude

  /** `received` and `popped` record what went into and out of each queue. */
  datatype State = State(
    capacity: nat,
    first: Table,
    second: Table,
    third: Table,
    pins12: seq<Pin>,
    pins23: seq<Pin>,
    running: bool,
    received12: seq<Pin>,
    popped12: seq<Handed>,
    received23: seq<Pin>,
    popped23: seq<Handed>)

  datatype Stage = First | Second | Third

  datatype Action =
    | Accept(stage: Stage, fd: nat)
    | FirstStage(receptions: seq<Reception>)
    | SecondStage(sendings: seq<Sending>, receptions: seq<Reception>)
    | ThirdStage(sendings: seq<Sending>)

  const MAX_NUMBER_OF_FIRST_WORKERS: nat := 3
  const MAX_NUMBER_OF_SECOND_WORKERS: nat := 5
  const MAX_NUMBER_OF_THIRD_WORKERS: nat := 2
  const PINS_QUEUE_MAX_SIZE: nat := 16

  function EmptyTable(size: nat): Table {
    Table(seq(size, _ => FREE_SLOT), 0)
  }

  function Initial(): State {
    State(PINS_QUEUE_MAX_SIZE, EmptyTable(MAX_NUMBER_OF_FIRST_WORKERS), EmptyTable(MAX_NUMBER_OF_SECOND_WORKERS),
          EmptyTable(MAX_NUMBER_OF_THIRD_WORKERS), [], [], true, [], [], [], [])
  }

  predicate Enabled(s: State, a: Action) {
    match a
    case Accept(_, _) => true
    case FirstStage(receptions) => s.running && |receptions| == |s.first.fds|
    case SecondStage(sendings, receptions) =>
      s.running && |sendings| == |s.second.fds| && |receptions| == |s.second.fds|
    case ThirdStage(sendings) => s.running && |sendings| == |s.third.fds|
  }

  function TableOf(s: State, stage: Stage): Table {
    match stage
    case First => s.first
    case Second => s.second
    case Third => s.third
  }

  /** `poll_workers_on_the_first_stage`. */
  function PollFirst(s: State, receptions: seq<Reception>): State
    requires |receptions| == |s.first.fds|
  {
    if s.first.online == 0 || |s.pins12| == s.capacity then s
    else
      var r := PollTable(s.first, receptions, s.pins12, s.capacity);
      s.(first := r.table, pins12 := r.queue, running := r.ok, received12 := s.received12 + r.received)
  }

  /** The sending half of `poll_workers_on_the_second_stage`. */
  function SendSecond(s: State, sendings: seq<Sending>): State
    requires |sendings| == |s.second.fds|
  {
    var r := SendTable(s.second, sendings, s.pins12);
    s.(second := r.table, pins12 := r.queue, running := r.ok, popped12 := s.popped12 + r.popped)
  }

  /** The receiving half; its outcome is ignored. */
  function PollSecond(s: State, receptions: seq<Reception>): State
    requires |receptions| == |s.second.fds|
  {
    var r := PollTable(s.second, receptions, s.pins23, s.capacity);
    s.(second := r.table, pins23 := r.queue, received23 := s.received23 + r.received)
  }

  /** The guard of the second stage, as the source has it. */
  predicate SecondStageSkipped(s: State) {
    s.second.online == 0 || (|s.pins12| == s.capacity && s.pins23 == [])
  }

  function SendThird(s: State, sendings: seq<Sending>): State
    requires |sendings| == |s.third.fds|
  {
    if s.third.online == 0 || s.pins23 == [] then s
    else
      var r := SendTable(s.third, sendings, s.pins23);
      s.(third := r.table, pins23 := r.queue, running := r.ok, popped23 := s.popped23 + r.popped)
  }

  function Apply(s: State, a: Action): State
    requires Enabled(s, a)
  {
    match a
    case Accept(First, fd) => s.(first := Insert(s.first, fd))
    case Accept(Second, fd) => s.(second := Insert(s.second, fd))
    case Accept(Third, fd) => s.(third := Insert(s.third, fd))
    case FirstStage(receptions) => PollFirst(s, receptions)
    case SecondStage(sendings, receptions) =>
      if SecondStageSkipped(s) then s
      else
        var t := SendSecond(s, sendings);
        if t.running then PollSecond(t, receptions) else t
    case ThirdStage(sendings) => SendThird(s, sendings)
  }

  // --- the invariant --------------------------------------------------------------------------

  /** The counters are right, no queue is overfull, and the pins taken from each queue, followed by
      its contents, are the pins received into it, in order. */
  ghost predicate Inv(s: State) {
    && Consistent(s.first) && Consistent(s.second) && Consistent(s.third)
    && |s.pins12| <= s.capacity && |s.pins23| <= s.capacity
    && s.received12 == Pins(s.popped12) + s.pins12
    && s.received23 == Pins(s.popped23) + s.pins23
  }

  lemma PollTableKeeps(t: Table, receptions: seq<Reception>, queue: seq<Pin>, capacity: nat)
    requires Consistent(t) && |receptions| == |t.fds| && |queue| <= capacity
    ensures var r := PollTable(t, receptions, queue, capacity);
            && Consistent(r.table) && |r.table.fds| == |t.fds|
            && |r.queue| <= capacity && r.queue == queue + r.received
  {
    PollCounterIsRight(t, receptions, 0, queue, capacity);
    LiveSlotsAre(t.fds);
    var slots := LiveSlots(t.fds, 0);
    assert InSlots(slots, t.fds);
    PollKeepsConsistent(t, receptions, slots, queue, capacity);
    PollQueues(t, receptions, slots, queue, capacity);
  }

  lemma SendTableKeeps(t: Table, sendings: seq<Sending>, queue: seq<Pin>)
    requires Consistent(t) && |sendings| == |t.fds|
    ensures var r := SendTable(t, sendings, queue);
            && Consistent(r.table) && |r.table.fds| == |t.fds|
            && Pins(r.popped) + r.queue == queue
  {
    SendCounterIsRight(t, sendings, 0, queue);
    LiveSlotsAre(t.fds);
    var slots := LiveSlots(t.fds, 0);
    assert InSlots(slots, t.fds);
    SendKeepsConsistent(t, sendings, slots, queue);
    SendTakesInOrder(t, sendings, slots, queue);
  }

  lemma PollFirstKeepsInv(s: State, receptions: seq<Reception>)
    requires Inv(s) && |receptions| == |s.first.fds|
    ensures Inv(PollFirst(s, receptions))
  {
    PollTableKeeps(s.first, receptions, s.pins12, s.capacity);
  }

  lemma SendSecondKeepsInv(s: State, sendings: seq<Sending>)
    requires Inv(s) && |sendings| == |s.second.fds|
    ensures Inv(SendSecond(s, sendings)) && |SendSecond(s, sendings).second.fds| == |s.second.fds|
  {
    var r := SendTable(s.second, sendings, s.pins12);
    SendTableKeeps(s.second, sendings, s.pins12);
    PinsConcat(s.popped12, r.popped);
    Regroup(Pins(s.popped12), Pins(r.popped), r.queue);
  }

  lemma PollSecondKeepsInv(s: State, receptions: seq<Reception>)
    requires Inv(s) && |receptions| == |s.second.fds|
    ensures Inv(PollSecond(s, receptions))
  {
    PollTableKeeps(s.second, receptions, s.pins23, s.capacity);
  }

  lemma SendThirdKeepsInv(s: State, sendings: seq<Sending>)
    requires Inv(s) && |sendings| == |s.third.fds|
    ensures Inv(SendThird(s, sendings))
  {
    var r := SendTable(s.third, sendings, s.pins23);
    SendTableKeeps(s.third, sendings, s.pins23);
    PinsConcat(s.popped23, r.popped);
    Regroup(Pins(s.popped23), Pins(r.popped), r.queue);
  }

  lemma Regroup(a: seq<Pin>, b: seq<Pin>, c: seq<Pin>)
    ensures a + (b + c) == (a + b) + c
  {
  }

  lemma AcceptKeepsInv(s: State, stage: Stage, fd: nat)
    requires Inv(s)
    ensures Inv(Apply(s, Accept(stage, fd)))
  {
    match stage {
      case First => InsertKeepsConsistent(s.first, fd);
      case Second => InsertKeepsConsistent(s.second, fd);
      case Third => InsertKeepsConsistent(s.third, fd);
    }
  }

  lemma SecondStageKeepsInv(s: State, sendings: seq<Sending>, receptions: seq<Reception>)
    requires Inv(s) && Enabled(s, SecondStage(sendings, receptions))
    ensures Inv(Apply(s, SecondStage(sendings, receptions)))
  {
    SendSecondKeepsInv(s, sendings);
    var t := SendSecond(s, sendings);
    PollSecondKeepsInv(t, receptions);
  }

  lemma StepKeepsInv(s: State, a: Action)
    requires Inv(s) && Enabled(s, a)
    ensures Inv(Apply(s, a))
  {
    match a {
      case Accept(stage, fd) => AcceptKeepsInv(s, stage, fd);
      case FirstStage(receptions) => PollFirstKeepsInv(s, receptions);
      case SecondStage(sendings, receptions) => SecondStageKeepsInv(s, sendings, receptions);
      case ThirdStage(sendings) => SendThirdKeepsInv(s, sendings);
    }
  }

  // --- every run ------------------------------------------------------------------------------

  ghost predicate Executable(s: State, acts: seq<Action>)
    decreases |acts|
  {
    acts == [] || (Enabled(s, acts[0]) && Executable(Apply(s, acts[0]), acts[1..]))
  }

  ghost function After(s: State, acts: seq<Action>): State
    requires Executable(s, acts)
    decreases |acts|
  {
    if acts == [] then s else After(Apply(s, acts[0]), acts[1..])
  }

  lemma {:induction false} RunKeepsInv(s: State, acts: seq<Action>)
    requires Inv(s) && Executable(s, acts)
    ensures Inv(After(s, acts)) && After(s, acts).capacity == s.capacity
    decreases |acts|
  {
    if acts != [] {
      StepKeepsInv(s, acts[0]);
      RunKeepsInv(Apply(s, acts[0]), acts[1..]);
    }
  }

  lemma InitialInv()
    ensures Inv(Initial())
  {
    NoneLive(Initial().first.fds);
    NoneLive(Initial().second.fds);
    NoneLive(Initial().third.fds);
  }

  /** However accepts and polls interleave, each counter is the number of slots in use, so a free
      slot is found exactly when the counter is below the size of the table. */
  lemma CountersAreRight(acts: seq<Action>)
    requires Executable(Initial(), acts)
    ensures var s := After(Initial(), acts);
            forall t | t in {s.first, s.second, s.third} ::
              t.online == Live(t.fds) <= |t.fds| && (t.online < |t.fds| <==> FREE_SLOT in t.fds)
  {
    InitialInv();
    RunKeepsInv(Initial(), acts);
    var s := After(Initial(), acts);
    forall t | t in {s.first, s.second, s.third}
      ensures t.online == Live(t.fds) <= |t.fds| && (t.online < |t.fds| <==> FREE_SLOT in t.fds)
    {
      LiveAtMost(t.fds);
    }
  }

  /** Over any number of passes, the pins taken from a queue, followed by its contents, are the pins
      received into it, in order; each pin taken was sent or is recorded as lost; no queue is overfull. */
  lemma PinsAreAccountedFor(acts: seq<Action>)
    requires Executable(Initial(), acts)
    ensures var s := After(Initial(), acts);
            && Pins(s.popped12) + s.pins12 == s.received12 && |s.pins12| <= PINS_QUEUE_MAX_SIZE
            && Pins(s.popped23) + s.pins23 == s.received23 && |s.pins23| <= PINS_QUEUE_MAX_SIZE
            && multiset(s.received12)
               == multiset(Select(s.popped12, true)) + multiset(Select(s.popped12, false)) + multiset(s.pins12)
            && multiset(s.received23)
               == multiset(Select(s.popped23, true)) + multiset(Select(s.popped23, false)) + multiset(s.pins23)
  {
    InitialInv();
    RunKeepsInv(Initial(), acts);
    var s := After(Initial(), acts);
    SentOrLost(s.popped12);
    SentOrLost(s.popped23);
    MultisetOfConcat(Pins(s.popped12), s.pins12);
    MultisetOfConcat(Pins(s.popped23), s.pins23);
  }

  lemma MultisetOfConcat(a: seq<Pin>, b: seq<Pin>)
    ensures multiset(a + b) == multiset(a) + multiset(b)
  {
  }

  // --- the guard of the second stage ----------------------------------------------------------

  /** The first queue is full and the second empty: every stage is skipped. */
  predicate Stuck(s: State) {
    |s.pins12| == s.capacity && s.pins23 == []
  }

  /** In that state no pin moves any more, whatever workers there are and whatever they do. */
  lemma {:induction false} StuckForever(s: State, acts: seq<Action>)
    requires Stuck(s) && Executable(s, acts)
    ensures Stuck(After(s, acts)) && After(s, acts).pins12 == s.pins12
    ensures After(s, acts).popped12 == s.popped12 && After(s, acts).received23 == s.received23
    decreases |acts|
  {
    if acts != [] {
      StuckForever(Apply(s, acts[0]), acts[1..]);
    }
  }

  // --- what each stage does -------------------------------------------------------------------

  /** The first stage is a poll of its workers into the first queue; skipping it when there are no
      workers or no room makes no difference. */
  lemma FirstStageIsAPoll(s: State, receptions: seq<Reception>)
    requires Inv(s) && s.running && |receptions| == |s.first.fds|
    ensures Enabled(s, FirstStage(receptions))
    ensures exists r ::
              && IsPoll(s.first, receptions, s.pins12, s.capacity, r)
              && Apply(s, FirstStage(receptions))
                 == s.(first := r.table, pins12 := r.queue, running := r.ok, received12 := s.received12 + r.received)
  {
    PollTableIsPoll(s.first, receptions, s.pins12, s.capacity);
    var r := PollTable(s.first, receptions, s.pins12, s.capacity);
    assert IsPoll(s.first, receptions, s.pins12, s.capacity, r);
  }

  /** Unless the broker is stuck, the second stage sends pins from the first queue to its workers and,
      if no socket failed, polls them into the second queue; how the poll ends does not matter. */
  lemma SecondStageIsASendAndAPoll(s: State, sendings: seq<Sending>, receptions: seq<Reception>)
    requires Inv(s) && s.running && |sendings| == |receptions| == |s.second.fds| && !Stuck(s)
    ensures Enabled(s, SecondStage(sendings, receptions))
    ensures exists r, q ::
              && IsSend(s.second, sendings, s.pins12, r)
              && (r.ok ==> |receptions| == |r.table.fds| && IsPoll(r.table, receptions, s.pins23, s.capacity, q))
              && Apply(s, SecondStage(sendings, receptions))
                 == if r.ok
                    then s.(second := q.table, pins12 := r.queue, pins23 := q.queue, popped12 := s.popped12 + r.popped,
                            received23 := s.received23 + q.received)
                    else s.(second := r.table, pins12 := r.queue, popped12 := s.popped12 + r.popped, running := false)
  {
    var r := SendTable(s.second, sendings, s.pins12);
    SendTableIsSend(s.second, sendings, s.pins12);
    SendTableKeeps(s.second, sendings, s.pins12);
    var q := PollTable(r.table, receptions, s.pins23, s.capacity);
    PollTableIsPoll(r.table, receptions, s.pins23, s.capacity);
    assert IsSend(s.second, sendings, s.pins12, r) && IsPoll(r.table, receptions, s.pins23, s.capacity, q);
  }

  /** The third stage is a send of pins from the second queue to its workers. */
  lemma ThirdStageIsASend(s: State, sendings: seq<Sending>)
    requires Inv(s) && s.running && |sendings| == |s.third.fds|
    ensures Enabled(s, ThirdStage(sendings))
    ensures exists r ::
              && IsSend(s.third, sendings, s.pins23, r)
              && Apply(s, ThirdStage(sendings))
                 == s.(third := r.table, pins23 := r.queue, running := r.ok, popped23 := s.popped23 + r.popped)
  {
    SendTableIsSend(s.third, sendings, s.pins23);
    var r := SendTable(s.third, sendings, s.pins23);
    assert IsSend(s.third, sendings, s.pins23, r);
  }

  /** A new worker changes the table of its stage only: it gets the first free slot there. */
  lemma AcceptGoesToItsStage(s: State, stage: Stage, fd: nat)
    ensures Enabled(s, Accept(stage, fd))
    ensures var t := Apply(s, Accept(stage, fd));
            && (forall other | other != stage :: TableOf(t, other) == TableOf(s, other))
            && (FREE_SLOT !in TableOf(s, stage).fds ==> t == s)
            && (forall i: nat | IsFirstFree(TableOf(s, stage).fds, i) ::
                  TableOf(t, stage) == Table(TableOf(s, stage).fds[i := fd], TableOf(s, stage).online + 1))
            && t == s.(first := t.first, second := t.second, third := t.third)
  {
    InsertTakesFirstFree(TableOf(s, stage), fd);
  }

  lemma BusyTable(t: Table, receptions: seq<Reception>, queue: seq<Pin>, capacity: nat)
    requires Consistent(t) && |receptions| == |t.fds| && |queue| <= capacity
    requires forall a | a in receptions :: a.Received?
    ensures var r := PollTable(t, receptions, queue, capacity);
            r.ok && r.table == t && |r.received| == Min(capacity - |queue|, t.online)
  {
    PollCounterIsRight(t, receptions, 0, queue, capacity);
    BusyPoll(t, receptions, LiveSlots(t.fds, 0), queue, capacity);
    LiveSlotsAreCounted(t.fds, 0);
    assert t.fds[0..] == t.fds;
  }

  lemma SmoothTable(t: Table, sendings: seq<Sending>, queue: seq<Pin>)
    requires Consistent(t) && |sendings| == |t.fds|
    requires forall a | a in sendings :: a.Sent?
    ensures var r := SendTable(t, sendings, queue);
            r.ok && r.table == t && |r.popped| == Min(|queue|, t.online) && Select(r.popped, false) == []
  {
    SendCounterIsRight(t, sendings, 0, queue);
    SmoothSend(t, sendings, LiveSlots(t.fds, 0), queue);
    LiveSlotsAreCounted(t.fds, 0);
    assert t.fds[0..] == t.fds;
  }

  /** If all first stage workers have a pin, each pass receives one from each, as far as there is room. */
  lemma FirstStageReceives(s: State, receptions: seq<Reception>)
    requires Inv(s) && Enabled(s, FirstStage(receptions)) && forall a | a in receptions :: a.Received?
    ensures |Apply(s, FirstStage(receptions)).received12|
            == |s.received12| + Min(s.capacity - |s.pins12|, s.first.online)
  {
    BusyTable(s.first, receptions, s.pins12, s.capacity);
  }

  /** If all sockets of the second stage take pins, each pass sends one to each worker, as far as there
      are pins, unless the broker is stuck; and if all workers have a pin, it receives one from each, as
      far as there is room. None is lost. */
  lemma SecondStageMovesPins(s: State, sendings: seq<Sending>, receptions: seq<Reception>)
    requires Inv(s) && Enabled(s, SecondStage(sendings, receptions)) && forall a | a in sendings :: a.Sent?
    ensures var t := Apply(s, SecondStage(sendings, receptions));
            && t.running && Select(t.popped12, false) == Select(s.popped12, false)
            && |t.popped12| == |s.popped12| + (if Stuck(s) then 0 else Min(|s.pins12|, s.second.online))
            && ((forall a | a in receptions :: a.Received?) ==>
                  |t.received23|
                  == |s.received23| + (if Stuck(s) then 0 else Min(s.capacity - |s.pins23|, s.second.online)))
  {
    SmoothTable(s.second, sendings, s.pins12);
    SelectConcat(s.popped12, SendTable(s.second, sendings, s.pins12).popped, false);
    if forall a | a in receptions :: a.Received? {
      BusyTable(s.second, receptions, s.pins23, s.capacity);
    }
  }

  /** If all sockets of the third stage take pins, each pass sends one to each worker, as far as there
      are pins, and none is lost. */
  lemma ThirdStageSends(s: State, sendings: seq<Sending>)
    requires Inv(s) && Enabled(s, ThirdStage(sendings)) && forall a | a in sendings :: a.Sent?
    ensures var t := Apply(s, ThirdStage(sendings));
            && t.running && Select(t.popped23, false) == Select(s.popped23, false)
            && |t.popped23| == |s.popped23| + Min(|s.pins23|, s.third.online)
  {
    SmoothTable(s.third, sendings, s.pins23);
    SelectConcat(s.popped23, SendTable(s.third, sendings, s.pins23).popped, false);
  }

  /** The first worker alone, sending a pin at every poll. */
  function BusyFirstWorker(n: nat): seq<Action> {
    seq(n, _ => FirstStage([Received(1), NothingYet, NothingYet]))
  }

  lemma {:induction false} FirstWorkerFills(s: State, n: nat)
    requires s.running && s.first == Table([4, FREE_SLOT, FREE_SLOT], 1) && |s.pins12| + n <= s.capacity
    ensures Executable(s, BusyFirstWorker(n))
    ensures var t := After(s, BusyFirstWorker(n));
            |t.pins12| == |s.pins12| + n && t.pins23 == s.pins23 && t.running && t.capacity == s.capacity
    decreases n
  {
    if n > 0 {
      var a := BusyFirstWorker(n)[0];
      OnePin(s);
      assert BusyFirstWorker(n)[1..] == BusyFirstWorker(n - 1);
      FirstWorkerFills(Apply(s, a), n - 1);
    }
  }

  lemma OnePin(s: State)
    requires s.running && s.first == Table([4, FREE_SLOT, FREE_SLOT], 1) && |s.pins12| < s.capacity
    ensures var a := FirstStage([Received(1), NothingYet, NothingYet]);
            Enabled(s, a) && Apply(s, a) == s.(pins12 := s.pins12 + [1], received12 := s.received12 + [1])
  {
    var receptions := [Received(1), NothingYet, NothingYet];
    var rest := PollFrom(s.first, receptions, 1, s.pins12 + [1], s.capacity);
    assert PollFrom(s.first, receptions, 3, s.pins12 + [1], s.capacity)
           == PollResult(s.first, s.pins12 + [1], [], [], true);
    assert PollFrom(s.first, receptions, 2, s.pins12 + [1], s.capacity).table == s.first;
    assert rest == PollResult(s.first, s.pins12 + [1], [], [], true);
    assert PollTable(s.first, receptions, s.pins12, s.capacity) == CheckedToo(0, [1], rest);
    assert [1] + rest.received == [1];
  }

  /** A single first stage worker that is alone long enough brings the broker into that state. */
  lemma StuckIsReachable()
    ensures exists acts :: Executable(Initial(), acts) && Stuck(After(Initial(), acts)) && After(Initial(), acts).running
  {
    var s := Apply(Initial(), Accept(First, 4));
    assert s.first.fds == [4, FREE_SLOT, FREE_SLOT];
    FirstWorkerFills(s, 16);
    var acts := [Accept(First, 4)] + BusyFirstWorker(16);
    assert acts[1..] == BusyFirstWorker(16);
    assert Executable(Initial(), acts);
  }

  lemma {:induction false} SomeLive(fds: seq<int>) returns (i: nat)
    requires Live(fds) > 0
    ensures i < |fds| && fds[i] != FREE_SLOT
  {
    if fds[0] == FREE_SLOT {
      i := SomeLive(fds[1..]);
      i := i + 1;
    } else {
      i := 0;
    }
  }

  predicate Moves(s: State, a: Action)
    requires Enabled(s, a)
  {
    Apply(s, a).pins12 != s.pins12 || Apply(s, a).pins23 != s.pins23
  }

  /** With workers at every stage, a pin can move exactly when the broker is not stuck. */
  lemma PinsCanMoveUnlessStuck(s: State)
    requires Inv(s) && s.running && s.first.online > 0 && s.second.online > 0 && s.third.online > 0
    ensures (exists a :: Enabled(s, a) && Moves(s, a)) <==> !Stuck(s)
  {
    if !Stuck(s) {
      if |s.pins12| < s.capacity {
        var receptions := seq(|s.first.fds|, _ => Received(1));
        FirstCanReceive(s, receptions);
        assert Moves(s, FirstStage(receptions));
      } else {
        var sendings := seq(|s.third.fds|, _ => Sent);
        ThirdCanSend(s, sendings);
        assert Moves(s, ThirdStage(sendings));
      }
    }
  }

  lemma TableCanReceive(t: Table, receptions: seq<Reception>, queue: seq<Pin>, capacity: nat)
    requires Consistent(t) && t.online > 0 && |queue| < capacity
    requires |receptions| == |t.fds| && forall r | r in receptions :: r == Received(1)
    ensures |PollTable(t, receptions, queue, capacity).queue| > |queue|
  {
    var i := SomeLive(t.fds);
    LiveSlotsAre(t.fds);
    PollCounterIsRight(t, receptions, 0, queue, capacity);
    var slots := LiveSlots(t.fds, 0);
    assert receptions[slots[0]] in receptions;
    PollGrows(t, receptions, slots, queue, capacity);
  }

  lemma TableCanSend(t: Table, sendings: seq<Sending>, queue: seq<Pin>)
    requires Consistent(t) && t.online > 0 && queue != []
    requires |sendings| == |t.fds| && forall r | r in sendings :: r == Sent
    ensures |SendTable(t, sendings, queue).queue| < |queue|
  {
    var i := SomeLive(t.fds);
    LiveSlotsAre(t.fds);
    SendCounterIsRight(t, sendings, 0, queue);
    var slots := LiveSlots(t.fds, 0);
    assert sendings[slots[0]] in sendings;
    SendShrinks(t, sendings, slots, queue);
  }

  lemma FirstCanReceive(s: State, receptions: seq<Reception>)
    requires Inv(s) && s.first.online > 0 && |s.pins12| < s.capacity
    requires |receptions| == |s.first.fds| && forall r | r in receptions :: r == Received(1)
    ensures PollFirst(s, receptions).pins12 != s.pins12
  {
    TableCanReceive(s.first, receptions, s.pins12, s.capacity);
  }

  lemma ThirdCanSend(s: State, sendings: seq<Sending>)
    requires Inv(s) && s.third.online > 0 && s.pins23 != []
    requires |sendings| == |s.third.fds| && forall r | r in sendings :: r == Sent
    ensures SendThird(s, sendings).pins23 != s.pins23
  {
    TableCanSend(s.third, sendings, s.pins23);
  }
}
