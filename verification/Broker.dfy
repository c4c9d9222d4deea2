/**
 The broker of os_ihw3/mark-4-5: it receives pins from the workers of one stage and sends them to
 the next through two bounded queues. Workers live in slot tables with a counter of the slots in
 use. A poll and an insertion each run under the mutex of their table, so they are single steps.
 */
module Broker {
  import opened PinsQueue
  import opened Prelude

  // --- slot tables ----------------------------------------------------------------------------

  const FREE_SLOT: int := -1

  datatype Table = Table(fds: seq<int>, online: int)

  /** The number of slots in use. */
  function Live(fds: seq<int>): nat {
    if fds == [] then 0 else (if fds[0] != FREE_SLOT then 1 else 0) + Live(fds[1..])
  }

  /** The counter tells the number of slots in use. */
  ghost predicate Consistent(t: Table) {
    t.online == Live(t.fds)
  }

  /** The slots in use from slot `from` on, in order. */
  function LiveSlots(fds: seq<int>, from: nat): (slots: seq<nat>)
    ensures forall k {:trigger slots[k]} | 0 <= k < |slots| :: slots[k] < |fds|
    decreases |fds| - from
  {
    if from >= |fds| then []
    else (if fds[from] != FREE_SLOT then [from] else []) + LiveSlots(fds, from + 1)
  }

  function Close(t: Table, i: nat): Table
    requires i < |t.fds|
  {
    Table(t.fds[i := FREE_SLOT], t.online - 1)
  }

  function FirstFree(fds: seq<int>): (i: nat)
    ensures i <= |fds|
  {
    if fds == [] || fds[0] == FREE_SLOT then 0 else 1 + FirstFree(fds[1..])
  }

  /** `insert_new_worker_into_arrays`: the first free slot, if there is one. */
  function Insert(t: Table, fd: int): Table {
    var i := FirstFree(t.fds);
    if i < |t.fds| then Table(t.fds[i := fd], t.online + 1) else t
  }

  lemma {:induction false} LiveUpdate(fds: seq<int>, i: nat, fd: int)
    requires i < |fds|
    ensures Live(fds[i := fd]) == Live(fds) - (if fds[i] != FREE_SLOT then 1 else 0) + (if fd != FREE_SLOT then 1 else 0)
  {
    if i == 0 {
      assert fds[0 := fd][1..] == fds[1..];
    } else {
      assert fds[i := fd][1..] == fds[1..][i - 1 := fd];
      LiveUpdate(fds[1..], i - 1, fd);
    }
  }

  lemma {:induction false} NoneLive(fds: seq<int>)
    requires forall k | 0 <= k < |fds| :: fds[k] == FREE_SLOT
    ensures Live(fds) == 0
  {
    if fds != [] {
      NoneLive(fds[1..]);
    }
  }

  lemma {:induction false} LiveAtMost(fds: seq<int>)
    ensures Live(fds) <= |fds|
    ensures Live(fds) < |fds| <==> FirstFree(fds) < |fds|
    ensures FirstFree(fds) < |fds| ==> fds[FirstFree(fds)] == FREE_SLOT
    ensures forall k | 0 <= k < FirstFree(fds) :: fds[k] != FREE_SLOT
  {
    if fds != [] && fds[0] != FREE_SLOT {
      LiveAtMost(fds[1..]);
    } else if fds != [] {
      LiveAtMost(fds[1..]);
    }
  }

  lemma {:induction false} LiveNone(fds: seq<int>, from: nat)
    requires Live(fds) == 0
    ensures LiveSlots(fds, from) == []
    decreases |fds| - from
  {
    if from < |fds| {
      LiveUpdate(fds, from, FREE_SLOT);
      LiveNone(fds, from + 1);
    }
  }

  lemma {:induction false} LiveSlotsAreLive(fds: seq<int>, from: nat)
    ensures forall i | i in LiveSlots(fds, from) :: from <= i < |fds| && fds[i] != FREE_SLOT
    decreases |fds| - from
  {
    if from < |fds| {
      LiveSlotsAreLive(fds, from + 1);
    }
  }

  ghost predicate Ascends(slots: seq<nat>) {
    forall j, k | 0 <= j < k < |slots| :: slots[j] < slots[k]
  }

  lemma AscendsFromFirst(i: nat, later: seq<nat>)
    requires Ascends(later) && forall x | x in later :: i < x
    ensures Ascends([i] + later)
  {
    var slots := [i] + later;
    forall j, k | 0 <= j < k < |slots|
      ensures slots[j] < slots[k]
    {
      assert slots[k] == later[k - 1] && later[k - 1] in later;
    }
  }

  lemma {:induction false} LiveSlotsAscend(fds: seq<int>, from: nat)
    ensures Ascends(LiveSlots(fds, from))
    decreases |fds| - from
  {
    if from < |fds| {
      LiveSlotsAscend(fds, from + 1);
      if fds[from] == FREE_SLOT {
        assert LiveSlots(fds, from) == LiveSlots(fds, from + 1);
      } else {
        LiveSlotsAreLive(fds, from + 1);
        AscendsFromFirst(from, LiveSlots(fds, from + 1));
      }
    }
  }

  lemma {:induction false} LiveSlotsAreAll(fds: seq<int>, from: nat)
    ensures forall i: nat | from <= i < |fds| && fds[i] != FREE_SLOT :: i in LiveSlots(fds, from)
    decreases |fds| - from
  {
    if from < |fds| {
      LiveSlotsAreAll(fds, from + 1);
    }
  }

  /** The live slots, all of them, in ascending order. */
  lemma LiveSlotsAre(fds: seq<int>)
    ensures var slots := LiveSlots(fds, 0);
            && (forall k {:trigger slots[k]} | 0 <= k < |slots| :: fds[slots[k]] != FREE_SLOT)
            && Ascends(slots)
            && (forall i: nat | i < |fds| && fds[i] != FREE_SLOT :: i in slots)
  {
    var slots := LiveSlots(fds, 0);
    LiveSlotsAreLive(fds, 0);
    assert forall k {:trigger slots[k]} | 0 <= k < |slots| :: slots[k] in slots;
    LiveSlotsAscend(fds, 0);
    LiveSlotsAreAll(fds, 0);
  }

  /** Slots before `from` do not matter. */
  lemma {:induction false} LiveSlotsUpdate(fds: seq<int>, from: nat, i: nat, fd: int)
    requires i < from && i < |fds|
    ensures LiveSlots(fds[i := fd], from) == LiveSlots(fds, from)
    decreases |fds| - from
  {
    if from < |fds| {
      LiveSlotsUpdate(fds, from + 1, i, fd);
    }
  }

  lemma InsertKeepsConsistent(t: Table, fd: int)
    requires Consistent(t) && fd != FREE_SLOT
    ensures Consistent(Insert(t, fd)) && |Insert(t, fd).fds| == |t.fds|
    ensures FirstFree(t.fds) < |t.fds| <==> t.online < |t.fds|
    ensures t.online < |t.fds| ==> Insert(t, fd).online == t.online + 1
  {
    LiveAtMost(t.fds);
    if FirstFree(t.fds) < |t.fds| {
      LiveUpdate(t.fds, FirstFree(t.fds), fd);
    }
  }

  ghost predicate IsFirstFree(fds: seq<int>, i: nat) {
    i < |fds| && fds[i] == FREE_SLOT && forall k | 0 <= k < i :: fds[k] != FREE_SLOT
  }

  /** A worker goes to the first free slot, and all other slots stay as they are; if there is none, the
      table stays as it is. */
  lemma InsertTakesFirstFree(t: Table, fd: int)
    ensures FREE_SLOT !in t.fds ==> Insert(t, fd) == t
    ensures FREE_SLOT in t.fds ==> exists i: nat :: IsFirstFree(t.fds, i)
    ensures forall i: nat | IsFirstFree(t.fds, i) :: Insert(t, fd) == Table(t.fds[i := fd], t.online + 1)
  {
    var first := FirstFree(t.fds);
    LiveAtMost(t.fds);
    assert FREE_SLOT in t.fds ==> IsFirstFree(t.fds, first);
    forall i: nat | IsFirstFree(t.fds, i)
      ensures i == first
    {
      assert !(i < first) && !(first < i);
    }
  }

  // --- polling --------------------------------------------------------------------------------

  /** What a worker's socket answers: found dead before receiving; a whole pin; nothing yet; dead;
      an error of any other kind. */
  datatype Reception = SocketDead | Received(pin: Pin) | NothingYet | ReceiveDead | ReceiveFailed

  datatype PollResult = PollResult(table: Table, queue: seq<Pin>, received: seq<Pin>, checked: seq<nat>, ok: bool)

  /** A dead worker's slot is freed. */
  function AfterReception(t: Table, i: nat, a: Reception): Table
    requires i < |t.fds|
  {
    if a.SocketDead? || a.ReceiveDead? then Close(t, i) else t
  }

  function PinReceived(a: Reception): seq<Pin> {
    if a.Received? then [a.pin] else []
  }

  /** The live slots one after the other, until the queue is full or a socket fails. */
  function Poll(t: Table, answers: seq<Reception>, slots: seq<nat>, queue: seq<Pin>, capacity: nat): (r: PollResult)
    requires forall k | 0 <= k < |slots| :: slots[k] < |t.fds|
    requires |answers| == |t.fds|
    ensures |r.table.fds| == |t.fds|
    decreases |slots|
  {
    if slots == [] || |queue| >= capacity then PollResult(t, queue, [], [], true)
    else
      var i := slots[0];
      if answers[i].ReceiveFailed? then PollResult(t, queue, [], [i], false)
      else CheckedToo(i, PinReceived(answers[i]),
                      Poll(AfterReception(t, i, answers[i]), answers, slots[1..],
                           queue + PinReceived(answers[i]), capacity))
  }

  function CheckedToo(i: nat, pins: seq<Pin>, r: PollResult): PollResult {
    r.(checked := [i] + r.checked, received := pins + r.received)
  }

  /** The pins received from the checked slots, in order. */
  function ReceivedFrom(answers: seq<Reception>, checked: seq<nat>): seq<Pin>
    requires forall k | 0 <= k < |checked| :: checked[k] < |answers|
  {
    if checked == [] then []
    else PinReceived(answers[checked[0]]) + ReceivedFrom(answers, checked[1..])
  }

  ghost predicate InSlots(slots: seq<nat>, fds: seq<int>) {
    && (forall k | 0 <= k < |slots| :: slots[k] < |fds| && fds[slots[k]] != FREE_SLOT)
    && (forall j, k | 0 <= j < k < |slots| :: slots[j] != slots[k])
  }

  lemma AfterReceptionConsistent(t: Table, i: nat, a: Reception, slots: seq<nat>)
    requires Consistent(t) && InSlots([i] + slots, t.fds) && i < |t.fds|
    ensures var u := AfterReception(t, i, a); Consistent(u) && InSlots(slots, u.fds) && |u.fds| == |t.fds|
  {
    assert ([i] + slots)[0] == i;
    assert forall k {:trigger slots[k]} | 0 <= k < |slots| :: slots[k] == ([i] + slots)[k + 1];
    LiveUpdate(t.fds, i, FREE_SLOT);
  }

  /** Polling keeps the counter right, and no slot changes unless it was checked. */
  lemma {:induction false} PollKeepsConsistent(
      t: Table, answers: seq<Reception>, slots: seq<nat>, queue: seq<Pin>, capacity: nat)
    requires Consistent(t) && InSlots(slots, t.fds) && |answers| == |t.fds|
    ensures var r := Poll(t, answers, slots, queue, capacity); Consistent(r.table) && |r.table.fds| == |t.fds|
    decreases |slots|
  {
    if slots != [] && |queue| < capacity && !answers[slots[0]].ReceiveFailed? {
      var i := slots[0];
      assert [i] + slots[1..] == slots;
      AfterReceptionConsistent(t, i, answers[i], slots[1..]);
      PollKeepsConsistent(AfterReception(t, i, answers[i]), answers, slots[1..],
                          queue + PinReceived(answers[i]), capacity);
    }
  }

  /** A poll checks the live slots in order, each at most once. It skips none of them unless the
      queue is full or a socket has failed. */
  lemma {:induction false} PollChecksInOrder(
      t: Table, answers: seq<Reception>, slots: seq<nat>, queue: seq<Pin>, capacity: nat)
    requires (forall k | 0 <= k < |slots| :: slots[k] < |t.fds|) && |answers| == |t.fds|
    ensures var r := Poll(t, answers, slots, queue, capacity);
            && |r.checked| <= |slots| && r.checked == slots[..|r.checked|]
            && (r.ok && |r.queue| < capacity ==> r.checked == slots)
    decreases |slots|
  {
    if slots != [] && |queue| < capacity && !answers[slots[0]].ReceiveFailed? {
      var i := slots[0];
      PollChecksInOrder(AfterReception(t, i, answers[i]), answers, slots[1..],
                        queue + PinReceived(answers[i]), capacity);
    }
  }

  /** A poll reports a failure exactly when a checked socket failed, and it ends there. */
  lemma {:induction false} PollReportsFailures(
      t: Table, answers: seq<Reception>, slots: seq<nat>, queue: seq<Pin>, capacity: nat)
    requires (forall k | 0 <= k < |slots| :: slots[k] < |t.fds|) && |answers| == |t.fds|
    ensures var r := Poll(t, answers, slots, queue, capacity);
            && (forall k | 0 <= k < |r.checked| :: r.checked[k] < |answers|)
            && (r.ok <==> forall k | 0 <= k < |r.checked| :: !answers[r.checked[k]].ReceiveFailed?)
            && forall k | 0 <= k < |r.checked| - 1 :: !answers[r.checked[k]].ReceiveFailed?
    decreases |slots|
  {
    if slots != [] && |queue| < capacity {
      var i := slots[0];
      if answers[i].ReceiveFailed? {
        assert Poll(t, answers, slots, queue, capacity).checked[0] == i;
      } else {
        var u, q := AfterReception(t, i, answers[i]), queue + PinReceived(answers[i]);
        PollReportsFailures(u, answers, slots[1..], q, capacity);
        CheckedLater(i, Poll(u, answers, slots[1..], q, capacity).checked);
      }
    }
  }

  lemma CheckedLater(i: nat, checked: seq<nat>)
    ensures forall k {:trigger ([i] + checked)[k]} | 0 < k <= |checked| :: ([i] + checked)[k] == checked[k - 1]
    ensures forall k {:trigger checked[k]} | 0 <= k < |checked| :: ([i] + checked)[k + 1] == checked[k]
  {
  }

  /** The slots checked name answers. */
  ghost predicate InRange(checked: seq<nat>, n: nat) {
    forall k | 0 <= k < |checked| :: checked[k] < n
  }

  lemma PrefixInRange(checked: seq<nat>, n: nat, k: nat)
    requires InRange(checked, n) && k <= |checked|
    ensures InRange(checked[..k], n)
  {
  }

  lemma PrefixFirst(i: nat, later: seq<nat>, k: nat)
    requires 0 < k <= |later| + 1
    ensures ([i] + later)[..k] == [i] + later[..k - 1] && ([i] + later[..k - 1])[1..] == later[..k - 1]
  {
  }

  /** There was room for a pin before each check. */
  lemma {:induction false} PollHadRoom(
      t: Table, answers: seq<Reception>, slots: seq<nat>, queue: seq<Pin>, capacity: nat, k: nat)
    requires InRange(slots, |t.fds|) && |answers| == |t.fds|
    requires k < |Poll(t, answers, slots, queue, capacity).checked|
    ensures var checked := Poll(t, answers, slots, queue, capacity).checked;
            InRange(checked[..k], |answers|) && |queue| + |ReceivedFrom(answers, checked[..k])| < capacity
    decreases |slots|
  {
    if k > 0 {
      var i := slots[0];
      var u, q := AfterReception(t, i, answers[i]), queue + PinReceived(answers[i]);
      PollHadRoom(u, answers, slots[1..], q, capacity, k - 1);
      PrefixFirst(i, Poll(u, answers, slots[1..], q, capacity).checked, k);
    }
  }

  /** The queue grows by the pins received, and is never overfilled. */
  lemma {:induction false} PollQueues(
      t: Table, answers: seq<Reception>, slots: seq<nat>, queue: seq<Pin>, capacity: nat)
    requires (forall k | 0 <= k < |slots| :: slots[k] < |t.fds|) && |answers| == |t.fds|
    ensures var r := Poll(t, answers, slots, queue, capacity);
            r.queue == queue + r.received && (|queue| <= capacity ==> |r.queue| <= capacity)
    decreases |slots|
  {
    if slots != [] && |queue| < capacity && !answers[slots[0]].ReceiveFailed? {
      var i := slots[0];
      var u, q := AfterReception(t, i, answers[i]), queue + PinReceived(answers[i]);
      PollQueues(u, answers, slots[1..], q, capacity);
      var rest := Poll(u, answers, slots[1..], q, capacity);
      assert q + rest.received == queue + (PinReceived(answers[i]) + rest.received);
    }
  }

  /** The pins received are those of the checked slots, in order. */
  lemma {:induction false} PollReceives(
      t: Table, answers: seq<Reception>, slots: seq<nat>, queue: seq<Pin>, capacity: nat)
    requires (forall k | 0 <= k < |slots| :: slots[k] < |t.fds|) && |answers| == |t.fds|
    ensures var r := Poll(t, answers, slots, queue, capacity);
            && (forall k | 0 <= k < |r.checked| :: r.checked[k] < |answers|)
            && r.received == ReceivedFrom(answers, r.checked)
    decreases |slots|
  {
    if slots != [] && |queue| < capacity {
      var i := slots[0];
      if answers[i].ReceiveFailed? {
        assert [i][1..] == [];
      } else {
        var u, q := AfterReception(t, i, answers[i]), queue + PinReceived(answers[i]);
        PollReceives(u, answers, slots[1..], q, capacity);
        var rest := Poll(u, answers, slots[1..], q, capacity);
        assert ([i] + rest.checked)[1..] == rest.checked;
      }
    }
  }

  /** Exactly the slots of checked dead workers are freed. */
  lemma {:induction false} PollFreesDeadWorkers(
    t: Table, answers: seq<Reception>, slots: seq<nat>, queue: seq<Pin>, capacity: nat, i: nat)
    requires (forall k | 0 <= k < |slots| :: slots[k] < |t.fds|) && |answers| == |t.fds| && i < |t.fds|
    ensures var r := Poll(t, answers, slots, queue, capacity);
            && |r.table.fds| == |t.fds|
            && r.table.fds[i] ==
               (if i in r.checked && (answers[i].SocketDead? || answers[i].ReceiveDead?) then FREE_SLOT else t.fds[i])
    decreases |slots|
  {
    if slots != [] && |queue| < capacity && !answers[slots[0]].ReceiveFailed? {
      var k := slots[0];
      PollFreesDeadWorkers(AfterReception(t, k, answers[k]), answers, slots[1..],
                           queue + PinReceived(answers[k]), capacity, i);
    }
  }

  // --- sending --------------------------------------------------------------------------------

  /** What comes of sending a pin to a worker: found dead before a pin is taken from the queue; sent;
      or the pin is lost because the socket is full, dead, or fails otherwise. */
  datatype Sending = WorkerDead | Sent | WouldBlock | SendDead | SendFailed

  /** A pin taken from the queue, and whether it was sent. */
  datatype Handed = Handed(pin: Pin, sent: bool)

  datatype SendResult = SendResult(table: Table, queue: seq<Pin>, popped: seq<Handed>, checked: seq<nat>, ok: bool)

  function AfterSending(t: Table, i: nat, a: Sending): Table
    requires i < |t.fds|
  {
    if a.WorkerDead? || a.SendDead? then Close(t, i) else t
  }

  /** The pin taken for a slot, if one is. */
  function Taken(queue: seq<Pin>, a: Sending): seq<Handed>
    requires queue != []
  {
    if a.WorkerDead? then [] else [Handed(queue[0], a.Sent?)]
  }

  /** The live slots one after the other, until the queue is empty or a socket fails. */
  function Send(t: Table, answers: seq<Sending>, slots: seq<nat>, queue: seq<Pin>): (r: SendResult)
    requires forall k | 0 <= k < |slots| :: slots[k] < |t.fds|
    requires |answers| == |t.fds|
    ensures |r.table.fds| == |t.fds|
    decreases |slots|
  {
    if slots == [] || queue == [] then SendResult(t, queue, [], [], true)
    else
      var i := slots[0];
      var taken := Taken(queue, answers[i]);
      if answers[i].SendFailed? then SendResult(t, queue[1..], taken, [i], false)
      else HandedToo(i, taken, Send(AfterSending(t, i, answers[i]), answers, slots[1..], queue[|taken|..]))
  }

  function HandedToo(i: nat, taken: seq<Handed>, r: SendResult): SendResult {
    r.(checked := [i] + r.checked, popped := taken + r.popped)
  }

  function Pins(handed: seq<Handed>): seq<Pin> {
    if handed == [] then [] else [handed[0].pin] + Pins(handed[1..])
  }

  /** The pins that were sent, or that were lost, in order. */
  function Select(handed: seq<Handed>, sent: bool): seq<Pin> {
    if handed == [] then []
    else (if handed[0].sent == sent then [handed[0].pin] else []) + Select(handed[1..], sent)
  }

  lemma {:induction false} PinsConcat(a: seq<Handed>, b: seq<Handed>)
    ensures Pins(a + b) == Pins(a) + Pins(b)
  {
    if a == [] {
      assert a + b == b;
    } else {
      assert (a + b)[1..] == a[1..] + b;
      PinsConcat(a[1..], b);
    }
  }

  lemma {:induction false} SelectConcat(a: seq<Handed>, b: seq<Handed>, sent: bool)
    ensures Select(a + b, sent) == Select(a, sent) + Select(b, sent)
  {
    if a == [] {
      assert a + b == b;
    } else {
      assert (a + b)[1..] == a[1..] + b;
      SelectConcat(a[1..], b, sent);
      var first := if a[0].sent == sent then [a[0].pin] else [];
      assert first + (Select(a[1..], sent) + Select(b, sent)) == (first + Select(a[1..], sent)) + Select(b, sent);
    }
  }

  /** Every pin taken from a queue was either sent or lost. */
  lemma {:induction false} SentOrLost(handed: seq<Handed>)
    ensures multiset(Pins(handed)) == multiset(Select(handed, true)) + multiset(Select(handed, false))
  {
    if handed != [] {
      SentOrLost(handed[1..]);
    }
  }

  /** How each pin taken for the checked slots fared, in order. */
  function Fates(answers: seq<Sending>, checked: seq<nat>): seq<bool>
    requires forall k | 0 <= k < |checked| :: checked[k] < |answers|
  {
    if checked == [] then []
    else (if answers[checked[0]].WorkerDead? then [] else [answers[checked[0]].Sent?]) + Fates(answers, checked[1..])
  }

  function SentFlags(handed: seq<Handed>): seq<bool> {
    if handed == [] then [] else [handed[0].sent] + SentFlags(handed[1..])
  }

  lemma AfterSendingConsistent(t: Table, i: nat, a: Sending, slots: seq<nat>)
    requires Consistent(t) && InSlots([i] + slots, t.fds) && i < |t.fds|
    ensures var u := AfterSending(t, i, a); Consistent(u) && InSlots(slots, u.fds) && |u.fds| == |t.fds|
  {
    assert ([i] + slots)[0] == i;
    assert forall k {:trigger slots[k]} | 0 <= k < |slots| :: slots[k] == ([i] + slots)[k + 1];
    LiveUpdate(t.fds, i, FREE_SLOT);
  }

  lemma {:induction false} SendKeepsConsistent(t: Table, answers: seq<Sending>, slots: seq<nat>, queue: seq<Pin>)
    requires Consistent(t) && InSlots(slots, t.fds) && |answers| == |t.fds|
    ensures var r := Send(t, answers, slots, queue); Consistent(r.table) && |r.table.fds| == |t.fds|
    decreases |slots|
  {
    if slots != [] && queue != [] && !answers[slots[0]].SendFailed? {
      var i := slots[0];
      assert [i] + slots[1..] == slots;
      AfterSendingConsistent(t, i, answers[i], slots[1..]);
      SendKeepsConsistent(AfterSending(t, i, answers[i]), answers, slots[1..], queue[|Taken(queue, answers[i])|..]);
    }
  }

  /** Sending skips no live slot while there are pins and no socket has failed. */
  lemma {:induction false} SendChecksInOrder(t: Table, answers: seq<Sending>, slots: seq<nat>, queue: seq<Pin>)
    requires (forall k | 0 <= k < |slots| :: slots[k] < |t.fds|) && |answers| == |t.fds|
    ensures var r := Send(t, answers, slots, queue);
            && |r.checked| <= |slots| && r.checked == slots[..|r.checked|]
            && (r.ok && r.queue != [] ==> r.checked == slots)
    decreases |slots|
  {
    if slots != [] && queue != [] && !answers[slots[0]].SendFailed? {
      var i := slots[0];
      SendChecksInOrder(AfterSending(t, i, answers[i]), answers, slots[1..], queue[|Taken(queue, answers[i])|..]);
    }
  }

  /** Sending takes pins in the order of the queue. */
  lemma {:induction false} SendTakesInOrder(t: Table, answers: seq<Sending>, slots: seq<nat>, queue: seq<Pin>)
    requires (forall k | 0 <= k < |slots| :: slots[k] < |t.fds|) && |answers| == |t.fds|
    ensures var r := Send(t, answers, slots, queue); Pins(r.popped) + r.queue == queue
    decreases |slots|
  {
    if slots != [] && queue != [] {
      var i := slots[0];
      var taken := Taken(queue, answers[i]);
      assert Pins(taken) + queue[|taken|..] == queue;
      if !answers[i].SendFailed? {
        var u := AfterSending(t, i, answers[i]);
        SendTakesInOrder(u, answers, slots[1..], queue[|taken|..]);
        PinsConcat(taken, Send(u, answers, slots[1..], queue[|taken|..]).popped);
      }
    }
  }

  lemma {:induction false} FlagsConcat(a: seq<Handed>, b: seq<Handed>)
    ensures SentFlags(a + b) == SentFlags(a) + SentFlags(b)
  {
    if a == [] {
      assert a + b == b;
    } else {
      assert (a + b)[1..] == a[1..] + b;
      FlagsConcat(a[1..], b);
    }
  }

  /** One pin is taken for each checked slot not found dead, and counts as sent exactly when the
      worker's socket took it. */
  lemma {:induction false} SendFates(t: Table, answers: seq<Sending>, slots: seq<nat>, queue: seq<Pin>)
    requires (forall k | 0 <= k < |slots| :: slots[k] < |t.fds|) && |answers| == |t.fds|
    ensures var r := Send(t, answers, slots, queue);
            && (forall k | 0 <= k < |r.checked| :: r.checked[k] < |answers|)
            && SentFlags(r.popped) == Fates(answers, r.checked)
    decreases |slots|
  {
    if slots != [] && queue != [] {
      var i := slots[0];
      var taken := Taken(queue, answers[i]);
      if answers[i].SendFailed? {
        assert taken[1..] == [] && [i][1..] == [];
      } else {
        var u := AfterSending(t, i, answers[i]);
        SendFates(u, answers, slots[1..], queue[|taken|..]);
        var rest := Send(u, answers, slots[1..], queue[|taken|..]);
        assert ([i] + rest.checked)[1..] == rest.checked;
        FlagsConcat(taken, rest.popped);
      }
    }
  }

  /** Sending reports a failure exactly when a checked socket failed, and it ends there. */
  lemma {:induction false} SendReportsFailures(t: Table, answers: seq<Sending>, slots: seq<nat>, queue: seq<Pin>)
    requires (forall k | 0 <= k < |slots| :: slots[k] < |t.fds|) && |answers| == |t.fds|
    ensures var r := Send(t, answers, slots, queue);
            && (forall k | 0 <= k < |r.checked| :: r.checked[k] < |answers|)
            && (r.ok <==> forall k | 0 <= k < |r.checked| :: !answers[r.checked[k]].SendFailed?)
            && forall k | 0 <= k < |r.checked| - 1 :: !answers[r.checked[k]].SendFailed?
    decreases |slots|
  {
    if slots != [] && queue != [] {
      var i := slots[0];
      if answers[i].SendFailed? {
        assert Send(t, answers, slots, queue).checked[0] == i;
      } else {
        var u, rest := AfterSending(t, i, answers[i]), queue[|Taken(queue, answers[i])|..];
        SendReportsFailures(u, answers, slots[1..], rest);
        CheckedLater(i, Send(u, answers, slots[1..], rest).checked);
      }
    }
  }

  /** There was a pin left before each check. */
  lemma {:induction false} SendHadPins(t: Table, answers: seq<Sending>, slots: seq<nat>, queue: seq<Pin>, k: nat)
    requires InRange(slots, |t.fds|) && |answers| == |t.fds|
    requires k < |Send(t, answers, slots, queue).checked|
    ensures var checked := Send(t, answers, slots, queue).checked;
            InRange(checked[..k], |answers|) && |Fates(answers, checked[..k])| < |queue|
    decreases |slots|
  {
    if k > 0 {
      var i := slots[0];
      var u, rest := AfterSending(t, i, answers[i]), queue[|Taken(queue, answers[i])|..];
      SendHadPins(u, answers, slots[1..], rest, k - 1);
      PrefixFirst(i, Send(u, answers, slots[1..], rest).checked, k);
    }
  }

  /** Exactly the slots of checked workers found dead, before or while sending, are freed. */
  lemma {:induction false} SendFreesDeadWorkers(t: Table, answers: seq<Sending>, slots: seq<nat>, queue: seq<Pin>, i: nat)
    requires (forall k | 0 <= k < |slots| :: slots[k] < |t.fds|) && |answers| == |t.fds| && i < |t.fds|
    ensures var r := Send(t, answers, slots, queue);
            && |r.table.fds| == |t.fds|
            && r.table.fds[i] ==
               (if i in r.checked && (answers[i].WorkerDead? || answers[i].SendDead?) then FREE_SLOT else t.fds[i])
    decreases |slots|
  {
    if slots != [] && queue != [] && !answers[slots[0]].SendFailed? {
      var k := slots[0];
      SendFreesDeadWorkers(AfterSending(t, k, answers[k]), answers, slots[1..], queue[|Taken(queue, answers[k])|..], i);
    }
  }

  /** A pin that arrives first stays in the queue. */
  lemma PollGrows(t: Table, answers: seq<Reception>, slots: seq<nat>, queue: seq<Pin>, capacity: nat)
    requires (forall k | 0 <= k < |slots| :: slots[k] < |t.fds|) && |answers| == |t.fds|
    requires slots != [] && |queue| < capacity && answers[slots[0]].Received?
    ensures |Poll(t, answers, slots, queue, capacity).queue| > |queue|
  {
    PollQueues(AfterReception(t, slots[0], answers[slots[0]]), answers, slots[1..],
               queue + PinReceived(answers[slots[0]]), capacity);
  }

  /** A pin that is sent first has left the queue. */
  lemma SendShrinks(t: Table, answers: seq<Sending>, slots: seq<nat>, queue: seq<Pin>)
    requires (forall k | 0 <= k < |slots| :: slots[k] < |t.fds|) && |answers| == |t.fds|
    requires slots != [] && queue != [] && answers[slots[0]].Sent?
    ensures |Send(t, answers, slots, queue).queue| < |queue|
  {
    SendTakesInOrder(AfterSending(t, slots[0], answers[slots[0]]), answers, slots[1..], queue[1..]);
  }

  // --- the loops with the counter -------------------------------------------------------------

  /** The loop of `poll_workers` from slot `i` on: it ends with the table, when the counter says that
      nobody is left, or when the queue is full. */
  function PollFrom(t: Table, receptions: seq<Reception>, i: nat, queue: seq<Pin>, capacity: nat): (r: PollResult)
    requires |receptions| == |t.fds|
    ensures |r.table.fds| == |t.fds|
    decreases |t.fds| - i
  {
    if i >= |t.fds| || t.online <= 0 || |queue| >= capacity then PollResult(t, queue, [], [], true)
    else if t.fds[i] == FREE_SLOT then PollFrom(t, receptions, i + 1, queue, capacity)
    else if receptions[i].ReceiveFailed? then PollResult(t, queue, [], [i], false)
    else
      CheckedToo(i, PinReceived(receptions[i]),
                 PollFrom(AfterReception(t, i, receptions[i]), receptions, i + 1,
                          queue + PinReceived(receptions[i]), capacity))
  }

  /** `poll_workers`. */
  function PollTable(t: Table, receptions: seq<Reception>, queue: seq<Pin>, capacity: nat): (r: PollResult)
    requires |receptions| == |t.fds|
    ensures |r.table.fds| == |t.fds|
  {
    PollFrom(t, receptions, 0, queue, capacity)
  }

  /** The loop of `send_pins_to_workers` from slot `i` on. */
  function SendFrom(t: Table, sendings: seq<Sending>, i: nat, queue: seq<Pin>): (r: SendResult)
    requires |sendings| == |t.fds|
    ensures |r.table.fds| == |t.fds|
    decreases |t.fds| - i
  {
    if i >= |t.fds| || t.online <= 0 || queue == [] then SendResult(t, queue, [], [], true)
    else if t.fds[i] == FREE_SLOT then SendFrom(t, sendings, i + 1, queue)
    else
      var taken := Taken(queue, sendings[i]);
      if sendings[i].SendFailed? then SendResult(t, queue[1..], taken, [i], false)
      else HandedToo(i, taken, SendFrom(AfterSending(t, i, sendings[i]), sendings, i + 1, queue[|taken|..]))
  }

  /** `send_pins_to_workers`. */
  function SendTable(t: Table, sendings: seq<Sending>, queue: seq<Pin>): (r: SendResult)
    requires |sendings| == |t.fds|
    ensures |r.table.fds| == |t.fds|
  {
    SendFrom(t, sendings, 0, queue)
  }

  lemma LiveSlotSkip(fds: seq<int>, i: nat)
    requires i < |fds| && fds[i] == FREE_SLOT
    ensures LiveSlots(fds, i) == LiveSlots(fds, i + 1)
  {
  }

  lemma LiveSlotFirst(fds: seq<int>, i: nat, fd: int)
    requires i < |fds| && fds[i] != FREE_SLOT
    ensures LiveSlots(fds, i) == [i] + LiveSlots(fds, i + 1)
    ensures LiveSlots(fds[i := fd], i + 1) == LiveSlots(fds, i + 1)
  {
    LiveSlotsUpdate(fds, i + 1, i, fd);
  }

  lemma PollFirstSlot(t: Table, receptions: seq<Reception>, i: nat, rest: seq<nat>, queue: seq<Pin>, capacity: nat)
    requires |receptions| == |t.fds| && i < |t.fds| && |queue| < capacity && !receptions[i].ReceiveFailed?
    requires forall k {:trigger rest[k]} | 0 <= k < |rest| :: rest[k] < |t.fds|
    ensures forall k {:trigger ([i] + rest)[k]} | 0 <= k < |[i] + rest| :: ([i] + rest)[k] < |t.fds|
    ensures Poll(t, receptions, [i] + rest, queue, capacity)
            == CheckedToo(i, PinReceived(receptions[i]),
                          Poll(AfterReception(t, i, receptions[i]), receptions, rest,
                               queue + PinReceived(receptions[i]), capacity))
  {
    assert ([i] + rest)[1..] == rest;
  }

  lemma SendFirstSlot(t: Table, sendings: seq<Sending>, i: nat, rest: seq<nat>, queue: seq<Pin>)
    requires |sendings| == |t.fds| && i < |t.fds| && queue != [] && !sendings[i].SendFailed?
    requires forall k {:trigger rest[k]} | 0 <= k < |rest| :: rest[k] < |t.fds|
    ensures forall k {:trigger ([i] + rest)[k]} | 0 <= k < |[i] + rest| :: ([i] + rest)[k] < |t.fds|
    ensures Send(t, sendings, [i] + rest, queue)
            == HandedToo(i, Taken(queue, sendings[i]),
                         Send(AfterSending(t, i, sendings[i]), sendings, rest, queue[|Taken(queue, sendings[i])|..]))
  {
    assert ([i] + rest)[1..] == rest;
  }

  lemma CloseKeepsConsistent(t: Table, i: nat)
    requires Consistent(t) && i < |t.fds| && t.fds[i] != FREE_SLOT
    ensures Consistent(Close(t, i))
  {
    LiveUpdate(t.fds, i, FREE_SLOT);
  }

  /** Stopping when the counter is zero makes no difference: the loop goes through all live slots. */
  lemma {:induction false} PollCounterIsRight(t: Table, receptions: seq<Reception>, i: nat, queue: seq<Pin>, capacity: nat)
    requires Consistent(t) && |receptions| == |t.fds|
    ensures PollFrom(t, receptions, i, queue, capacity) == Poll(t, receptions, LiveSlots(t.fds, i), queue, capacity)
    decreases |t.fds| - i
  {
    if i < |t.fds| && |queue| < capacity {
      if t.online <= 0 {
        LiveNone(t.fds, i);
      } else if t.fds[i] == FREE_SLOT {
        LiveSlotSkip(t.fds, i);
        PollCounterIsRight(t, receptions, i + 1, queue, capacity);
      } else {
        LiveSlotFirst(t.fds, i, FREE_SLOT);
        if !receptions[i].ReceiveFailed? {
          CloseKeepsConsistent(t, i);
          PollFirstSlot(t, receptions, i, LiveSlots(t.fds, i + 1), queue, capacity);
          PollCounterIsRight(AfterReception(t, i, receptions[i]), receptions, i + 1,
                             queue + PinReceived(receptions[i]), capacity);
        }
      }
    }
  }

  lemma {:induction false} SendCounterIsRight(t: Table, sendings: seq<Sending>, i: nat, queue: seq<Pin>)
    requires Consistent(t) && |sendings| == |t.fds|
    ensures SendFrom(t, sendings, i, queue) == Send(t, sendings, LiveSlots(t.fds, i), queue)
    decreases |t.fds| - i
  {
    if i < |t.fds| && queue != [] {
      if t.online <= 0 {
        LiveNone(t.fds, i);
      } else if t.fds[i] == FREE_SLOT {
        LiveSlotSkip(t.fds, i);
        SendCounterIsRight(t, sendings, i + 1, queue);
      } else {
        LiveSlotFirst(t.fds, i, FREE_SLOT);
        if !sendings[i].SendFailed? {
          CloseKeepsConsistent(t, i);
          SendFirstSlot(t, sendings, i, LiveSlots(t.fds, i + 1), queue);
          SendCounterIsRight(AfterSending(t, i, sendings[i]), sendings, i + 1, queue[|Taken(queue, sendings[i])|..]);
        }
      }
    }
  }

  // --- nobody is skipped ----------------------------------------------------------------------

  /** `checked` goes up through live slots and leaves none out on the way; so each is in it at most once. */
  ghost predicate OnlyLiveSlots(fds: seq<int>, checked: seq<nat>) {
    && Ascends(checked)
    && (forall k {:trigger checked[k]} | 0 <= k < |checked| :: checked[k] < |fds| && fds[checked[k]] != FREE_SLOT)
    && (forall i: nat, k | 0 <= k < |checked| && i < checked[k] && fds[i] != FREE_SLOT :: i in checked)
  }

  /** `checked` goes up through all live slots: each of them is in it exactly once. */
  ghost predicate EachLiveSlotOnce(fds: seq<int>, checked: seq<nat>) {
    && OnlyLiveSlots(fds, checked)
    && forall i: nat | i < |fds| && fds[i] != FREE_SLOT :: i in checked
  }

  lemma PrefixIsLive(fds: seq<int>, checked: seq<nat>)
    requires var slots := LiveSlots(fds, 0); |checked| <= |slots| && checked == slots[..|checked|]
    ensures OnlyLiveSlots(fds, checked)
    ensures checked == LiveSlots(fds, 0) ==> EachLiveSlotOnce(fds, checked)
  {
    var slots := LiveSlots(fds, 0);
    LiveSlotsAre(fds);
    forall i: nat, k | 0 <= k < |checked| && i < checked[k] && fds[i] != FREE_SLOT
      ensures i in checked
    {
      var j :| 0 <= j < |slots| && slots[j] == i;
      assert checked[k] == slots[k];
      assert j < k;
      assert checked[j] == i;
    }
  }

  /** The loop of `poll_workers` checks live slots only, in order. If it ends well and leaves room in
      the queue, it has checked every slot that was live at the start, each exactly once: stopping
      when the counter is zero skips nobody. */
  lemma NoWorkerIsSkipped(t: Table, receptions: seq<Reception>, queue: seq<Pin>, capacity: nat)
    requires Consistent(t) && |receptions| == |t.fds|
    ensures var r := PollTable(t, receptions, queue, capacity);
            && OnlyLiveSlots(t.fds, r.checked)
            && (r.ok && |r.queue| < capacity ==> EachLiveSlotOnce(t.fds, r.checked))
  {
    PollCounterIsRight(t, receptions, 0, queue, capacity);
    PollChecksInOrder(t, receptions, LiveSlots(t.fds, 0), queue, capacity);
    PrefixIsLive(t.fds, PollTable(t, receptions, queue, capacity).checked);
  }

  /** Likewise for `send_pins_to_workers`, as long as there are pins left. */
  lemma NoWorkerGoesWithout(t: Table, sendings: seq<Sending>, queue: seq<Pin>)
    requires Consistent(t) && |sendings| == |t.fds|
    ensures var r := SendTable(t, sendings, queue);
            && OnlyLiveSlots(t.fds, r.checked)
            && (r.ok && r.queue != [] ==> EachLiveSlotOnce(t.fds, r.checked))
  {
    SendCounterIsRight(t, sendings, 0, queue);
    SendChecksInOrder(t, sendings, LiveSlots(t.fds, 0), queue);
    PrefixIsLive(t.fds, SendTable(t, sendings, queue).checked);
  }

  // --- what a pass over a table does ----------------------------------------------------------

  /**
   What a poll is, in terms of the slots it checked: they are live, in order, none left out on the way;
   each was checked while there was room and no socket had failed; the pins they had are queued in
   order; exactly the dead ones are freed; and the poll ends only when it may.
   */
  ghost predicate IsPoll(t: Table, receptions: seq<Reception>, queue: seq<Pin>, capacity: nat, r: PollResult)
    requires |receptions| == |t.fds|
  {
    && OnlyLiveSlots(t.fds, r.checked) && InRange(r.checked, |receptions|)
    && r.received == ReceivedFrom(receptions, r.checked) && r.queue == queue + r.received
    && (r.ok <==> forall k | 0 <= k < |r.checked| :: !receptions[r.checked[k]].ReceiveFailed?)
    && (forall k | 0 <= k < |r.checked| - 1 :: !receptions[r.checked[k]].ReceiveFailed?)
    && (forall k | 0 <= k < |r.checked| ::
          InRange(r.checked[..k], |receptions|) && |queue| + |ReceivedFrom(receptions, r.checked[..k])| < capacity)
    && (r.ok && |r.queue| < capacity ==> EachLiveSlotOnce(t.fds, r.checked))
    && PollFrees(t.fds, receptions, r.checked, r.table.fds)
  }

  /** Exactly the checked slots whose worker is dead become free. */
  ghost predicate PollFrees(before: seq<int>, receptions: seq<Reception>, checked: seq<nat>, after: seq<int>)
    requires |receptions| == |before|
  {
    && |after| == |before|
    && forall i | 0 <= i < |before| ::
         after[i] ==
         if i in checked && (receptions[i].SocketDead? || receptions[i].ReceiveDead?) then FREE_SLOT else before[i]
  }

  lemma PollTableIsPoll(t: Table, receptions: seq<Reception>, queue: seq<Pin>, capacity: nat)
    requires Consistent(t) && |receptions| == |t.fds|
    ensures IsPoll(t, receptions, queue, capacity, PollTable(t, receptions, queue, capacity))
  {
    var slots := LiveSlots(t.fds, 0);
    var r := PollTable(t, receptions, queue, capacity);
    PollCounterIsRight(t, receptions, 0, queue, capacity);
    NoWorkerIsSkipped(t, receptions, queue, capacity);
    PollReceives(t, receptions, slots, queue, capacity);
    PollQueues(t, receptions, slots, queue, capacity);
    PollReportsFailures(t, receptions, slots, queue, capacity);
    forall k | 0 <= k < |r.checked|
      ensures InRange(r.checked[..k], |receptions|) && |queue| + |ReceivedFrom(receptions, r.checked[..k])| < capacity
    {
      PrefixInRange(r.checked, |receptions|, k);
      PollHadRoom(t, receptions, slots, queue, capacity, k);
    }
    forall i: nat | i < |t.fds|
      ensures r.table.fds[i] == if i in r.checked && (receptions[i].SocketDead? || receptions[i].ReceiveDead?)
                                then FREE_SLOT else t.fds[i]
    {
      PollFreesDeadWorkers(t, receptions, slots, queue, capacity, i);
    }
  }

  /**
   What a send is, in terms of the slots it checked: they are live, in order, none left out on the way;
   each was checked while a pin was left and no socket had failed; one pin was taken, in order, for
   each worker not found dead, and counts as sent exactly when the socket took it; exactly the dead
   workers are freed; and the send ends only when it may.
   */
  ghost predicate IsSend(t: Table, sendings: seq<Sending>, queue: seq<Pin>, r: SendResult)
    requires |sendings| == |t.fds|
  {
    && OnlyLiveSlots(t.fds, r.checked) && InRange(r.checked, |sendings|)
    && Pins(r.popped) + r.queue == queue && SentFlags(r.popped) == Fates(sendings, r.checked)
    && (r.ok <==> forall k | 0 <= k < |r.checked| :: !sendings[r.checked[k]].SendFailed?)
    && (forall k | 0 <= k < |r.checked| - 1 :: !sendings[r.checked[k]].SendFailed?)
    && (forall k | 0 <= k < |r.checked| ::
          InRange(r.checked[..k], |sendings|) && |Fates(sendings, r.checked[..k])| < |queue|)
    && (r.ok && r.queue != [] ==> EachLiveSlotOnce(t.fds, r.checked))
    && SendFrees(t.fds, sendings, r.checked, r.table.fds)
  }

  /** Exactly the checked slots whose worker was found dead, before or while sending, become free. */
  ghost predicate SendFrees(before: seq<int>, sendings: seq<Sending>, checked: seq<nat>, after: seq<int>)
    requires |sendings| == |before|
  {
    && |after| == |before|
    && forall i | 0 <= i < |before| ::
         after[i] ==
         if i in checked && (sendings[i].WorkerDead? || sendings[i].SendDead?) then FREE_SLOT else before[i]
  }

  lemma SendTableIsSend(t: Table, sendings: seq<Sending>, queue: seq<Pin>)
    requires Consistent(t) && |sendings| == |t.fds|
    ensures IsSend(t, sendings, queue, SendTable(t, sendings, queue))
  {
    var slots := LiveSlots(t.fds, 0);
    var r := SendTable(t, sendings, queue);
    SendCounterIsRight(t, sendings, 0, queue);
    NoWorkerGoesWithout(t, sendings, queue);
    SendTakesInOrder(t, sendings, slots, queue);
    SendFates(t, sendings, slots, queue);
    SendReportsFailures(t, sendings, slots, queue);
    forall k | 0 <= k < |r.checked|
      ensures InRange(r.checked[..k], |sendings|) && |Fates(sendings, r.checked[..k])| < |queue|
    {
      PrefixInRange(r.checked, |sendings|, k);
      SendHadPins(t, sendings, slots, queue, k);
    }
    forall i: nat | i < |t.fds|
      ensures r.table.fds[i] == if i in r.checked && (sendings[i].WorkerDead? || sendings[i].SendDead?)
                                then FREE_SLOT else t.fds[i]
    {
      SendFreesDeadWorkers(t, sendings, slots, queue, i);
    }
  }

  // --- when every socket works ----------------------------------------------------------------

  lemma {:induction false} LiveSlotsAreCounted(fds: seq<int>, from: nat)
    requires from <= |fds|
    ensures |LiveSlots(fds, from)| == Live(fds[from..])
    decreases |fds| - from
  {
    if from < |fds| {
      LiveSlotsAreCounted(fds, from + 1);
      assert fds[from..][1..] == fds[from + 1..];
    }
  }

  /** With workers and room, a poll checks somebody. */
  lemma SomebodyIsPolled(t: Table, receptions: seq<Reception>, queue: seq<Pin>, capacity: nat)
    requires Consistent(t) && |receptions| == |t.fds| && t.online > 0 && |queue| < capacity
    ensures PollTable(t, receptions, queue, capacity).checked != []
  {
    PollCounterIsRight(t, receptions, 0, queue, capacity);
    LiveSlotsAreCounted(t.fds, 0);
    assert t.fds[0..] == t.fds;
  }

  /** With workers and pins, a send checks somebody. */
  lemma SomebodyIsServed(t: Table, sendings: seq<Sending>, queue: seq<Pin>)
    requires Consistent(t) && |sendings| == |t.fds| && t.online > 0 && queue != []
    ensures SendTable(t, sendings, queue).checked != []
  {
    SendCounterIsRight(t, sendings, 0, queue);
    LiveSlotsAreCounted(t.fds, 0);
    assert t.fds[0..] == t.fds;
  }

  /** If every worker has a pin, a poll receives one from each, as far as there is room. */
  lemma {:induction false} BusyPoll(t: Table, receptions: seq<Reception>, slots: seq<nat>, queue: seq<Pin>, capacity: nat)
    requires (forall k | 0 <= k < |slots| :: slots[k] < |t.fds|) && |receptions| == |t.fds| && |queue| <= capacity
    requires forall a | a in receptions :: a.Received?
    ensures var r := Poll(t, receptions, slots, queue, capacity);
            r.ok && r.table == t && |r.received| == Min(capacity - |queue|, |slots|)
    decreases |slots|
  {
    if slots != [] && |queue| < capacity {
      var i := slots[0];
      assert receptions[i] in receptions;
      BusyPoll(t, receptions, slots[1..], queue + [receptions[i].pin], capacity);
    }
  }

  /** If every socket takes a pin, a send serves each worker, as far as there are pins. */
  lemma {:induction false} SmoothSend(t: Table, sendings: seq<Sending>, slots: seq<nat>, queue: seq<Pin>)
    requires (forall k | 0 <= k < |slots| :: slots[k] < |t.fds|) && |sendings| == |t.fds|
    requires forall a | a in sendings :: a.Sent?
    ensures var r := Send(t, sendings, slots, queue);
            r.ok && r.table == t && |r.popped| == Min(|queue|, |slots|) && Select(r.popped, false) == []
    decreases |slots|
  {
    if slots != [] && queue != [] {
      var i := slots[0];
      assert sendings[i] in sendings;
      SmoothSend(t, sendings, slots[1..], queue[1..]);
      var rest := Send(t, sendings, slots[1..], queue[1..]);
      assert ([Handed(queue[0], true)] + rest.popped)[1..] == rest.popped;
    }
  }
}
