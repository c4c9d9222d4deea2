/** The three stages of the poller of os_ihw3/mark-4-5, on the tables and queues in place. */
module Server {
  import opened PinsQueue
  import opened Broker
  import opened WorkerTable
  import opened Poller

  class Server {
    const first: WorkerTable
    const second: WorkerTable
    const third: WorkerTable
    const pins12: PinsQueue
    const pins23: PinsQueue
    var running: bool
    ghost var received12: seq<Pin>
    ghost var popped12: seq<Handed>
    ghost var received23: seq<Pin>
    ghost var popped23: seq<Handed>

    ghost function Repr(): set<object> {
      {first, first.fds, second, second.fds, third, third.fds, pins12, pins12.pins, pins23, pins23.pins}
    }

    ghost function View(): Poller.State
      reads this, Repr()
    {
      State(pins12.pins.Length, first.View(), second.View(), third.View(), pins12.contents, pins23.contents,
            running, received12, popped12, received23, popped23)
    }

    /** No two tables and no two queues share anything. */
    ghost predicate Apart() {
      && first != second && second != third && third != first && pins12 != pins23
      && first.fds != second.fds && second.fds != third.fds && third.fds != first.fds
      && pins12.pins != pins23.pins
      && pins12.pins !in {first.fds, second.fds, third.fds} && pins23.pins !in {first.fds, second.fds, third.fds}
      && pins12.pins.Length == pins23.pins.Length
    }

    ghost predicate Valid()
      reads this, Repr()
    {
      Apart() && first.Valid() && second.Valid() && third.Valid() && pins12.Valid() && pins23.Valid()
    }

    constructor ()
      ensures Valid() && View() == Poller.Initial()
    {
      first := new WorkerTable(MAX_NUMBER_OF_FIRST_WORKERS);
      second := new WorkerTable(MAX_NUMBER_OF_SECOND_WORKERS);
      third := new WorkerTable(MAX_NUMBER_OF_THIRD_WORKERS);
      pins12 := new PinsQueue(PINS_QUEUE_MAX_SIZE);
      pins23 := new PinsQueue(PINS_QUEUE_MAX_SIZE);
      running := true;
      received12, popped12, received23, popped23 := [], [], [], [];
      new;
      assert first.View() == EmptyTable(MAX_NUMBER_OF_FIRST_WORKERS);
      assert second.View() == EmptyTable(MAX_NUMBER_OF_SECOND_WORKERS);
      assert third.View() == EmptyTable(MAX_NUMBER_OF_THIRD_WORKERS);
    }

    method PollFirstStage(sockets: Sockets<Reception>)
      requires Valid() && Enabled(View(), FirstStage(sockets.answers)) && sockets.asked == []
      modifies this, first, first.fds, sockets, pins12, pins12.pins
      ensures Valid() && View() == Apply(old(View()), FirstStage(sockets.answers))
      ensures old(first.online) > 0 && old(|pins12.contents|) < pins12.pins.Length ==> sockets.asked != []
    {
      if first.online == 0 || pins12.IsFull() {
        return;
      }
      ghost var result := PollTable(first.View(), sockets.answers, pins12.contents, pins12.pins.Length);
      running := first.PollWorkers(sockets, pins12);
      received12 := received12 + result.received;
    }

    /** The sending half of the second stage. */
    method SendToSecondStage(sockets: Sockets<Sending>)
      requires Valid() && |sockets.answers| == second.fds.Length && sockets.asked == []
      modifies this, second, second.fds, sockets, pins12
      ensures Valid() && View() == SendSecond(old(View()), sockets.answers)
      ensures old(second.online) > 0 && old(pins12.contents) != [] ==> sockets.asked != []
    {
      var handed;
      running, handed := second.SendPinsToWorkers(sockets, pins12);
      popped12 := popped12 + handed;
    }

    /** The receiving half, whose outcome is ignored. */
    method ReceiveFromSecondStage(sockets: Sockets<Reception>)
      requires Valid() && |sockets.answers| == second.fds.Length && sockets.asked == []
      modifies this, second, second.fds, sockets, pins23, pins23.pins
      ensures Valid() && View() == PollSecond(old(View()), sockets.answers)
      ensures old(second.online) > 0 && old(|pins23.contents|) < pins23.pins.Length ==> sockets.asked != []
    {
      ghost var result := PollTable(second.View(), sockets.answers, pins23.contents, pins23.pins.Length);
      var _ := second.PollWorkers(sockets, pins23);
      received23 := received23 + result.received;
    }

    /** Skipped when the first queue is full and the second empty, as the source has it. Otherwise pins
        are offered to the workers if there are both, and unless a socket failed, the workers left are
        polled if there is room. */
    method PollSecondStage(sending: Sockets<Sending>, receiving: Sockets<Reception>)
      requires Valid() && Enabled(View(), SecondStage(sending.answers, receiving.answers))
      requires sending.asked == [] && receiving.asked == []
      modifies this, second, second.fds, sending, receiving, pins12, pins23, pins23.pins
      ensures Valid() && View() == Apply(old(View()), SecondStage(sending.answers, receiving.answers))
      ensures old(second.online) > 0 && old(pins12.contents) != [] && !Stuck(old(View())) ==> sending.asked != []
      ensures Stuck(old(View())) ==> sending.asked == [] && receiving.asked == []
      ensures !running ==> receiving.asked == []
      ensures old(second.online) > 0 && old(|pins23.contents|) < pins23.pins.Length && !Stuck(old(View())) ==>
                (forall a | a in sending.answers :: a.Sent?) ==> receiving.asked != []
    {
      if second.online == 0 || (pins12.IsFull() && pins23.IsEmpty()) {
        return;
      }
      if forall a | a in sending.answers :: a.Sent? {
        SmoothTable(second.View(), sending.answers, pins12.contents);
      }
      SendToSecondStage(sending);
      if running {
        ReceiveFromSecondStage(receiving);
      }
    }

    method PollThirdStage(sockets: Sockets<Sending>)
      requires Valid() && Enabled(View(), ThirdStage(sockets.answers)) && sockets.asked == []
      modifies this, third, third.fds, sockets, pins23
      ensures Valid() && View() == Apply(old(View()), ThirdStage(sockets.answers))
      ensures old(third.online) > 0 && old(pins23.contents) != [] ==> sockets.asked != []
    {
      if third.online == 0 || pins23.IsEmpty() {
        return;
      }
      var handed;
      running, handed := third.SendPinsToWorkers(sockets, pins23);
      popped23 := popped23 + handed;
    }

    /** A new worker goes to the table of its stage, or is turned away. */
    method AcceptWorker(stage: Stage, fd: nat) returns (index: int)
      requires Valid()
      modifies first, first.fds, second, second.fds, third, third.fds
      ensures Valid() && View() == Apply(old(View()), Accept(stage, fd))
      ensures index == -1 <==> old(TableOf(View(), stage).online) == |old(TableOf(View(), stage).fds)|
    {
      LiveAtMost(TableOf(View(), stage).fds);
      match stage {
        case First => index := first.Insert(fd);
        case Second => index := second.Insert(fd);
        case Third => index := third.Insert(fd);
      }
    }
  }
}
