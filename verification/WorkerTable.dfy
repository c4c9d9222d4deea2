/** The slot table of os_ihw3/mark-4-5 as accepts, polls and sends update it in place. */
module WorkerTable {
  import opened PinsQueue
  import opened Broker

  /** What the sockets of a table's slots answer in one pass. An answer is known only by asking, and
      `asked` records which sockets were asked, in order. */
  class Sockets<A> {
    const answers: seq<A>
    ghost var asked: seq<nat>

    constructor (answers: seq<A>)
      ensures this.answers == answers && asked == []
    {
      this.answers, asked := answers, [];
    }

    method Ask(i: nat) returns (answer: A)
      requires i < |answers|
      modifies this
      ensures answer == answers[i] && asked == old(asked) + [i]
    {
      asked := asked + [i];
      answer := answers[i];
    }
  }

  class WorkerTable {
    const fds: array<int>
    var online: int

    function View(): Table
      reads this, fds
    {
      Table(fds[..], online)
    }

    /** The counter tells the number of slots in use. */
    ghost predicate Valid()
      reads this, fds
    {
      Consistent(View())
    }

    constructor (size: nat)
      ensures Valid() && fresh(fds) && fds.Length == size && online == 0
      ensures forall i | 0 <= i < size :: fds[i] == FREE_SLOT
    {
      fds := new int[size](_ => FREE_SLOT);
      online := 0;
      new;
      NoneLive(fds[..]);
    }

    /** `insert_new_worker_into_arrays`: the slot, or -1 if all slots are in use. */
    method Insert(fd: int) returns (index: int)
      requires Valid() && fd != FREE_SLOT
      modifies this, fds
      ensures Valid() && View() == Broker.Insert(old(View()), fd)
      ensures if old(online) < fds.Length then 0 <= index && IsFirstFree(old(fds[..]), index) && fds[..] == old(fds[..])[index := fd]
              else index == -1 && fds[..] == old(fds[..])
    {
      LiveAtMost(fds[..]);
      InsertKeepsConsistent(View(), fd);
      assert online <= fds.Length;
      var i := 0;
      while i < fds.Length
        invariant 0 <= i <= FirstFree(fds[..])
        invariant fds[..] == old(fds[..]) && online == old(online)
      {
        if fds[i] == FREE_SLOT {
          assert online < fds.Length;
          online := online + 1;
          fds[i] := fd;
          return i;
        }
        i := i + 1;
      }
      return -1;
    }

    method CloseSlot(i: nat)
      requires i < fds.Length
      modifies this, fds
      ensures View() == Close(old(View()), i)
    {
      fds[i] := FREE_SLOT;
      online := online - 1;
    }

    /** One worker of `poll_workers`: its socket is asked; false only on an unknown error. */
    method ReceiveFrom(i: nat, sockets: Sockets<Reception>, pins: PinsQueue) returns (ok: bool)
      requires Valid() && pins.Valid() && i < fds.Length && fds[i] != FREE_SLOT && fds != pins.pins
      requires |sockets.answers| == fds.Length && |pins.contents| < pins.pins.Length
      modifies this, fds, sockets, pins, pins.pins
      ensures Valid() && pins.Valid()
      ensures sockets.asked == old(sockets.asked) + [i]
      ensures View() == AfterReception(old(View()), i, sockets.answers[i])
      ensures pins.contents == old(pins.contents) + PinReceived(sockets.answers[i])
      ensures ok <==> !sockets.answers[i].ReceiveFailed?
    {
      var reception := sockets.Ask(i);
      match reception {
        case Received(pin) =>
          var put := pins.TryPut(pin);
          assert put;
        case NothingYet =>
        case ReceiveFailed =>
        case _ =>
          CloseKeepsConsistent(View(), i);
          CloseSlot(i);
      }
      ok := !reception.ReceiveFailed?;
    }

    /** `poll_workers`. A poll that ends well and leaves room in the queue has asked every worker that
        was online at the start, each exactly once; exactly the dead ones among those asked are gone. */
    method PollWorkers(sockets: Sockets<Reception>, pins: PinsQueue) returns (ok: bool)
      requires Valid() && pins.Valid() && fds != pins.pins
      requires |sockets.answers| == fds.Length && sockets.asked == []
      modifies this, fds, sockets, pins, pins.pins
      ensures Valid() && pins.Valid()
      ensures Polled(PollTable(old(View()), sockets.answers, old(pins.contents), pins.pins.Length),
                     View(), pins.contents, sockets.asked, ok)
      ensures OnlyLiveSlots(old(fds[..]), sockets.asked)
      ensures ok && |pins.contents| < pins.pins.Length ==> EachLiveSlotOnce(old(fds[..]), sockets.asked)
      ensures InRange(sockets.asked, fds.Length)
      ensures pins.contents == old(pins.contents) + ReceivedFrom(sockets.answers, sockets.asked)
      ensures ok <==> forall k | 0 <= k < |sockets.asked| :: !sockets.answers[sockets.asked[k]].ReceiveFailed?
      ensures PollFrees(old(fds[..]), sockets.answers, sockets.asked, fds[..])
      ensures old(online) > 0 && old(|pins.contents|) < pins.pins.Length ==> sockets.asked != []
    {
      ghost var t, queue := View(), pins.contents;
      ok := PollLoop(sockets, pins);
      PollTableIsPoll(t, sockets.answers, queue, pins.pins.Length);
      if t.online > 0 && |queue| < pins.pins.Length {
        SomebodyIsPolled(t, sockets.answers, queue, pins.pins.Length);
      }
    }

    /** The loop of `poll_workers`, with the counter in its guard. */
    method PollLoop(sockets: Sockets<Reception>, pins: PinsQueue) returns (ok: bool)
      requires Valid() && pins.Valid() && fds != pins.pins
      requires |sockets.answers| == fds.Length && sockets.asked == []
      modifies this, fds, sockets, pins, pins.pins
      ensures Valid() && pins.Valid()
      ensures Polled(PollTable(old(View()), sockets.answers, old(pins.contents), pins.pins.Length),
                     View(), pins.contents, sockets.asked, ok)
    {
      ghost var result := PollTable(View(), sockets.answers, pins.contents, pins.pins.Length);
      var i := 0;
      while i < fds.Length && online > 0 && !pins.IsFull()
        invariant 0 <= i <= fds.Length && Valid() && pins.Valid()
        invariant PollOnward(View(), sockets.answers, i, pins.contents, pins.pins.Length, sockets.asked, result)
      {
        if fds[i] != FREE_SLOT {
          PollCheck(View(), sockets.answers, i, pins.contents, pins.pins.Length, sockets.asked, result);
          ok := ReceiveFrom(i, sockets, pins);
          if !ok {
            return false;
          }
        }
        i := i + 1;
      }
      ok := true;
    }

    /** One slot of `send_pins_to_workers`: `more` is `handed` with the pin taken for its worker, if it
        has one; false only on an unknown error. */
    method SendTo(i: nat, sockets: Sockets<Sending>, pins: PinsQueue, handed: seq<Handed>, ghost result: SendResult)
      returns (ok: bool, more: seq<Handed>)
      requires Valid() && pins.Valid() && i < fds.Length && online > 0 && fds != pins.pins
      requires |sockets.answers| == fds.Length && pins.contents != []
      requires SendOnward(View(), sockets.answers, i, pins.contents, handed, sockets.asked, result)
      modifies this, fds, sockets, pins
      ensures Valid() && pins.Valid()
      ensures ok ==> SendOnward(View(), sockets.answers, i + 1, pins.contents, more, sockets.asked, result)
      ensures !ok ==> result == SendResult(View(), pins.contents, more, sockets.asked, false)
    {
      if fds[i] == FREE_SLOT {
        return true, handed;
      }
      SendCheck(View(), sockets.answers, i, pins.contents, handed, sockets.asked, result);
      var sending := sockets.Ask(i);
      CloseKeepsConsistent(View(), i);
      if sending.WorkerDead? {
        CloseSlot(i);
        return true, handed + [];
      }
      var popped, pin := pins.TryPop();
      assert popped;
      more := handed + [Handed(pin, sending.Sent?)];
      if sending.SendDead? {
        CloseSlot(i);
      }
      ok := !sending.SendFailed?;
    }

    /** `send_pins_to_workers`; again the counter skips nobody. For each worker asked that was not found
        dead the next pin is taken, and exactly the dead ones among those asked are gone. */
    method SendPinsToWorkers(sockets: Sockets<Sending>, pins: PinsQueue) returns (ok: bool, handed: seq<Handed>)
      requires Valid() && pins.Valid() && fds != pins.pins
      requires |sockets.answers| == fds.Length && sockets.asked == []
      modifies this, fds, sockets, pins
      ensures Valid() && pins.Valid()
      ensures SendTable(old(View()), sockets.answers, old(pins.contents))
              == SendResult(View(), pins.contents, handed, sockets.asked, ok)
      ensures OnlyLiveSlots(old(fds[..]), sockets.asked)
      ensures ok && pins.contents != [] ==> EachLiveSlotOnce(old(fds[..]), sockets.asked)
      ensures InRange(sockets.asked, fds.Length)
      ensures Pins(handed) + pins.contents == old(pins.contents)
      ensures SentFlags(handed) == Fates(sockets.answers, sockets.asked)
      ensures ok <==> forall k | 0 <= k < |sockets.asked| :: !sockets.answers[sockets.asked[k]].SendFailed?
      ensures SendFrees(old(fds[..]), sockets.answers, sockets.asked, fds[..])
      ensures old(online) > 0 && old(pins.contents) != [] ==> sockets.asked != []
    {
      ghost var t, queue := View(), pins.contents;
      ok, handed := SendLoop(sockets, pins);
      SendTableIsSend(t, sockets.answers, queue);
      if t.online > 0 && queue != [] {
        SomebodyIsServed(t, sockets.answers, queue);
      }
    }

    /** The loop of `send_pins_to_workers`, with the counter in its guard. */
    method SendLoop(sockets: Sockets<Sending>, pins: PinsQueue) returns (ok: bool, handed: seq<Handed>)
      requires Valid() && pins.Valid() && fds != pins.pins
      requires |sockets.answers| == fds.Length && sockets.asked == []
      modifies this, fds, sockets, pins
      ensures Valid() && pins.Valid()
      ensures SendTable(old(View()), sockets.answers, old(pins.contents))
              == SendResult(View(), pins.contents, handed, sockets.asked, ok)
    {
      ghost var result := SendTable(View(), sockets.answers, pins.contents);
      SendStart(View(), sockets.answers, pins.contents);
      handed := [];
      var i := 0;
      while i < fds.Length && online > 0 && !pins.IsEmpty()
        invariant 0 <= i <= fds.Length && Valid() && pins.Valid()
        invariant SendOnward(View(), sockets.answers, i, pins.contents, handed, sockets.asked, result)
      {
        ok, handed := SendTo(i, sockets, pins, handed, result);
        if !ok {
          return false, handed;
        }
        i := i + 1;
      }
      SendDone(View(), sockets.answers, i, pins.contents, handed, sockets.asked, result);
      ok := true;
    }
  }

  /** A poll has come to this table, queue and outcome, and asked these sockets. */
  ghost predicate Polled(result: PollResult, t: Table, queue: seq<Pin>, asked: seq<nat>, ok: bool) {
    result.table == t && result.queue == queue && result.checked == asked && result.ok == ok
  }

  /** What is left to do from slot `i` on completes the result. */
  ghost predicate PollOnward(
    t: Table, receptions: seq<Reception>, i: nat, queue: seq<Pin>, capacity: nat, asked: seq<nat>, result: PollResult)
    requires |receptions| == |t.fds|
  {
    var r := PollFrom(t, receptions, i, queue, capacity);
    Polled(result, r.table, r.queue, asked + r.checked, r.ok)
  }

  /** One live slot is checked. */
  lemma PollCheck(
    t: Table, receptions: seq<Reception>, i: nat, queue: seq<Pin>, capacity: nat, asked: seq<nat>, result: PollResult)
    requires |receptions| == |t.fds| && i < |t.fds| && t.online > 0 && t.fds[i] != FREE_SLOT && |queue| < capacity
    requires PollOnward(t, receptions, i, queue, capacity, asked, result)
    ensures var u, q := AfterReception(t, i, receptions[i]), queue + PinReceived(receptions[i]);
            if receptions[i].ReceiveFailed? then Polled(result, u, q, asked + [i], false)
            else PollOnward(u, receptions, i + 1, q, capacity, asked + [i], result)
  {
    var u, q := AfterReception(t, i, receptions[i]), queue + PinReceived(receptions[i]);
    if receptions[i].ReceiveFailed? {
      assert q == queue;
    } else {
      Regroup(asked, [i], PollFrom(u, receptions, i + 1, q, capacity).checked);
    }
  }

  lemma Regroup<T>(a: seq<T>, b: seq<T>, c: seq<T>)
    ensures a + (b + c) == (a + b) + c
  {
  }

  ghost predicate SendOnward(
    t: Table, sendings: seq<Sending>, i: nat, queue: seq<Pin>, handed: seq<Handed>, asked: seq<nat>, result: SendResult)
    requires |sendings| == |t.fds|
  {
    var r := SendFrom(t, sendings, i, queue);
    result == SendResult(r.table, r.queue, handed + r.popped, asked + r.checked, r.ok)
  }

  lemma SendStart(t: Table, sendings: seq<Sending>, queue: seq<Pin>)
    requires |sendings| == |t.fds|
    ensures SendOnward(t, sendings, 0, queue, [], [], SendTable(t, sendings, queue))
  {
  }

  lemma SendDone(
    t: Table, sendings: seq<Sending>, i: nat, queue: seq<Pin>, handed: seq<Handed>, asked: seq<nat>, result: SendResult)
    requires |sendings| == |t.fds| && (i >= |t.fds| || t.online <= 0 || queue == [])
    requires SendOnward(t, sendings, i, queue, handed, asked, result)
    ensures result == SendResult(t, queue, handed, asked, true)
  {
  }

  lemma SendCheck(
    t: Table, sendings: seq<Sending>, i: nat, queue: seq<Pin>, handed: seq<Handed>, asked: seq<nat>, result: SendResult)
    requires |sendings| == |t.fds| && i < |t.fds| && t.online > 0 && t.fds[i] != FREE_SLOT && queue != []
    requires SendOnward(t, sendings, i, queue, handed, asked, result)
    ensures var u, taken := AfterSending(t, i, sendings[i]), Taken(queue, sendings[i]);
            if sendings[i].SendFailed?
            then result == SendResult(u, queue[|taken|..], handed + taken, asked + [i], false)
            else SendOnward(u, sendings, i + 1, queue[|taken|..], handed + taken, asked + [i], result)
  {
    var u, taken := AfterSending(t, i, sendings[i]), Taken(queue, sendings[i]);
    if !sendings[i].SendFailed? {
      var rest := SendFrom(u, sendings, i + 1, queue[|taken|..]);
      Regroup(handed, taken, rest.popped);
      Regroup(asked, [i], rest.checked);
    }
  }
}
