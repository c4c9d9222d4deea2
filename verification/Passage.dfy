/** The broadcast protocol can do what it is for: a pin can go all the way, and an order stops clients. */
module Passage {
  import opened Delivery
  import opened Messages
  import opened Network
  import opened Prelude
  import opened Provenance
  import opened Sums
  import PinCheck

  /** The copies of a datagram that reaches client `i` only. */
  function Only(i: nat): Transit {
    Transit(Lost, seq(3, j => if j == i then Arrives(0) else Lost))
  }

  function OnlyServer(): Transit {
    Transit(Arrives(0), [Lost, Lost, Lost])
  }

  /** The server has nothing to do, and has received only `m`. */
  ghost predicate Ready(s: State, inbox: seq<Message>) {
    s.server.polling && s.server.tasks == [] && s.server.inbox == inbox && |s.clients| == 3
  }

  /** The server receives a pin, tries to log that twice, and passes the pin on to client `i`. */
  function Forwarding(i: nat): seq<Action> {
    [Poll] + ([Perform(false, Only(i))] + ([Perform(false, Only(i))] + [Perform(false, Only(i))]))
  }

  lemma PerformsThree(s: State, a: Action)
    requires a.Perform? && |s.server.tasks| == 3 && s.server.tasks[0] == s.server.tasks[1] == Enqueue
    ensures Executable(s, [a] + ([a] + [a]))
    ensures After(s, [a] + ([a] + [a])) == Apply(Apply(Apply(s, a), a), a)
  {
    var t := Apply(s, a);
    var u := Apply(t, a);
    OneStep(u, a);
    OneStep(t, a);
    RunOn(t, [a], [a]);
    OneStep(s, a);
    RunOn(s, [a], [a] + [a]);
  }

  lemma Forwards(s: State, m: Message, receiver: Component, pin: Pin, i: nat)
    requires Ready(s, [m]) && i < 3
    requires Plan(m) == [Enqueue, Enqueue, Send(receiver, PinTransferring, PinContent(pin))]
    ensures Executable(s, Forwarding(i))
    ensures var t := After(s, Forwarding(i));
            && Ready(t, [])
            && t.clients == Deliver(s.clients, Message(SERVER, receiver, PinTransferring, PinContent(pin)), Only(i).clients)
  {
    var a := Perform(false, Only(i));
    var t := Apply(s, Poll);
    PerformsThree(t, a);
    OneStep(s, Poll);
    RunOn(s, [Poll], [a] + ([a] + [a]));
  }

  /** The client meant gets the message, the others do not. */
  lemma OnlyOneGets(clients: seq<Client>, m: Message, i: nat, j: nat)
    requires |clients| == 3 && i < 3 && j < 3 && clients[i].inbox == []
    ensures var c := Deliver(clients, m, Only(i).clients)[j];
            && c.inbox == (if i == j then [m] else clients[j].inbox)
            && c.role == clients[j].role && c.held == clients[j].held
            && c.running == clients[j].running && c.taken == clients[j].taken
  {
    DeliverAt(clients, m, Only(i).clients, j);
  }

  lemma NobodyGets(clients: seq<Client>, m: Message, j: nat)
    requires |clients| == 3 && j < 3
    ensures var c := Deliver(clients, m, OnlyServer().clients)[j];
            && c.inbox == clients[j].inbox && c.role == clients[j].role && c.held == clients[j].held
            && c.running == clients[j].running && c.taken == clients[j].taken
  {
    DeliverAt(clients, m, OnlyServer().clients, j);
  }

  /** The clients after some steps: a worker of each stage; only the second may hold a pin. */
  ghost predicate Workers(s: State, inbox1: seq<Message>, held1: Option<Pin>, inbox2: seq<Message>) {
    && |s.clients| == 3
    && s.clients[0].role == FIRST_STAGE && s.clients[1].role == SECOND_STAGE && s.clients[2].role == THIRD_STAGE
    && s.clients[0].inbox == [] && s.clients[1].inbox == inbox1 && s.clients[2].inbox == inbox2
    && s.clients[1].held == held1 && s.clients[0].held == s.clients[2].held == None
    && s.clients[2].taken == []
    && (forall i | 0 <= i < 3 :: s.clients[i].running)
  }

  lemma Produces(s: State, pin: Pin)
    requires Ready(s, []) && Workers(s, [], None, []) && PinCheck.IsStraight(pin)
    ensures Enabled(s, Produce(0, pin, OnlyServer()))
    ensures var t := Apply(s, Produce(0, pin, OnlyServer()));
            && Ready(t, [Message(FIRST_STAGE, SERVER, PinTransferring, PinContent(pin))])
            && Workers(t, [], None, [])
  {
    var m := Message(FIRST_STAGE, SERVER, PinTransferring, PinContent(pin));
    forall j: nat | j < 3 {
      NobodyGets(s.clients, m, j);
    }
  }

  lemma Resends(s: State, pin: Pin)
    requires Ready(s, []) && Workers(s, [], Some(pin), [])
    ensures Enabled(s, Resend(1, OnlyServer()))
    ensures var t := Apply(s, Resend(1, OnlyServer()));
            && Ready(t, [Message(SECOND_STAGE, SERVER, PinTransferring, PinContent(pin))])
            && Workers(t, [], None, [])
  {
    var m := Message(SECOND_STAGE, SERVER, PinTransferring, PinContent(pin));
    var clients := s.clients[1 := s.clients[1].(held := None)];
    forall j: nat | j < 3 {
      NobodyGets(clients, m, j);
    }
  }

  lemma ForwardedToSecond(s: State, pin: Pin)
    requires Ready(s, [Message(FIRST_STAGE, SERVER, PinTransferring, PinContent(pin))]) && Workers(s, [], None, [])
    ensures Executable(s, Forwarding(1)) && Ready(After(s, Forwarding(1)), [])
    ensures Workers(After(s, Forwarding(1)), [Message(SERVER, SECOND_STAGE, PinTransferring, PinContent(pin))], None, [])
  {
    Forwards(s, s.server.inbox[0], SECOND_STAGE, pin, 1);
    forall j: nat | j < 3 {
      OnlyOneGets(s.clients, Message(SERVER, SECOND_STAGE, PinTransferring, PinContent(pin)), 1, j);
    }
  }

  lemma ForwardedToThird(s: State, pin: Pin)
    requires Ready(s, [Message(SECOND_STAGE, SERVER, PinTransferring, PinContent(pin))]) && Workers(s, [], None, [])
    ensures Executable(s, Forwarding(2)) && Ready(After(s, Forwarding(2)), [])
    ensures Workers(After(s, Forwarding(2)), [], None, [Message(SERVER, THIRD_STAGE, PinTransferring, PinContent(pin))])
  {
    Forwards(s, s.server.inbox[0], THIRD_STAGE, pin, 2);
    forall j: nat | j < 3 {
      OnlyOneGets(s.clients, Message(SERVER, THIRD_STAGE, PinTransferring, PinContent(pin)), 2, j);
    }
  }

  /** From the first stage to the hands of the second stage worker. */
  lemma FirstHalf(s: State, pin: Pin) returns (acts: seq<Action>)
    requires Ready(s, []) && Workers(s, [], None, []) && PinCheck.IsStraight(pin)
    ensures Executable(s, acts) && Ready(After(s, acts), []) && Workers(After(s, acts), [], Some(pin), [])
  {
    var a := Produce(0, pin, OnlyServer());
    Produces(s, pin);
    OneStep(s, a);
    var t := Apply(s, a);
    ForwardedToSecond(t, pin);
    var u := After(t, Forwarding(1));
    OneStep(u, Consume(1));
    RunOn(t, Forwarding(1), [Consume(1)]);
    RunOn(s, [a], Forwarding(1) + [Consume(1)]);
    acts := [a] + (Forwarding(1) + [Consume(1)]);
  }

  /** From there to the third stage worker. */
  lemma SecondHalf(s: State, pin: Pin) returns (acts: seq<Action>)
    requires Ready(s, []) && Workers(s, [], Some(pin), [])
    ensures Executable(s, acts) && |After(s, acts).clients| == 3
    ensures Total(Is, ToThird(Some(pin)), After(s, acts).clients[2].taken) == 1
  {
    var a := Resend(1, OnlyServer());
    Resends(s, pin);
    OneStep(s, a);
    var t := Apply(s, a);
    ForwardedToThird(t, pin);
    var u := After(t, Forwarding(2));
    OneStep(u, Consume(2));
    RunOn(t, Forwarding(2), [Consume(2)]);
    RunOn(s, [a], Forwarding(2) + [Consume(2)]);
    acts := [a] + (Forwarding(2) + [Consume(2)]);
    var m := Message(SERVER, THIRD_STAGE, PinTransferring, PinContent(pin));
    assert Apply(u, Consume(2)).clients[2].taken == [] + [m];
    TotalAppend(Is, ToThird(Some(pin)), [], m);
  }

  /** With a worker at each stage, there is a run in which a given pin that passes the parity check is
      produced, passed on, resent, passed on again, and accepted by the third stage worker. */
  lemma PinsCanGoThrough(logCapacity: nat, pin: Pin)
    requires PinCheck.IsStraight(pin)
    ensures var roles := [FIRST_STAGE, SECOND_STAGE, THIRD_STAGE];
            exists acts ::
              && IsRun(roles, logCapacity, acts) && |End(roles, logCapacity, acts).clients| == 3
              && Total(Is, ToThird(Some(pin)), End(roles, logCapacity, acts).clients[2].taken) == 1
  {
    var roles := [FIRST_STAGE, SECOND_STAGE, THIRD_STAGE];
    var s := Initial(roles, logCapacity);
    var a := FirstHalf(s, pin);
    var b := SecondHalf(After(s, a), pin);
    RunOn(s, a, b);
    assert IsRun(roles, logCapacity, a + b);
  }

  /** A manager, a client with role `role`, and any other client, before anything has happened. */
  ghost predicate Fresh(s: State, role: Component) {
    && Ready(s, []) && s.clients[0].role == MANAGER && s.clients[1].role == role
    && forall i | 0 <= i < 3 :: s.clients[i].running && s.clients[i].inbox == [] && s.clients[i].held == None
  }

  lemma Orders(s: State, role: Component)
    requires Fresh(s, role)
    ensures Enabled(s, Order(0, role, OnlyServer()))
    ensures var t := Apply(s, Order(0, role, OnlyServer()));
            && Ready(t, [Message(MANAGER, SERVER, ManagerCommand, CommandContent(role))])
            && t.clients[1].running && t.clients[1].role == role && t.clients[1].held == None && t.clients[1].inbox == []
  {
    NobodyGets(s.clients, Message(MANAGER, SERVER, ManagerCommand, CommandContent(role)), 1);
  }

  /** The server receives an order to stop clients, tries to log that, and tells client 1 to stop. */
  lemma CarriesOut(s: State, role: Component)
    requires Ready(s, [Message(MANAGER, SERVER, ManagerCommand, CommandContent(role))]) && IsClient(role)
    requires s.clients[1].inbox == []
    ensures var acts := [Poll] + ([Perform(false, Only(1))] + [Perform(false, Only(1))]);
            && Executable(s, acts)
            && After(s, acts).clients == Deliver(s.clients, Message(SERVER, role, Shutdown, Bytes), Only(1).clients)
  {
    var a := Perform(false, Only(1));
    var t := Apply(s, Poll);
    var u := Apply(t, a);
    assert u.server.tasks[0] == Send(role, Shutdown, Bytes);
    OneStep(u, a);
    OneStep(t, a);
    RunOn(t, [a], [a]);
    OneStep(s, Poll);
    RunOn(s, [Poll], [a] + [a]);
  }

  lemma OrderReachesClient(s: State, role: Component) returns (acts: seq<Action>)
    requires Fresh(s, role) && IsClient(role)
    ensures Executable(s, acts) && |After(s, acts).clients| == 3
    ensures After(s, acts).clients[1].running && After(s, acts).clients[1].role == role
    ensures After(s, acts).clients[1].held == None
    ensures After(s, acts).clients[1].inbox == [Message(SERVER, role, Shutdown, Bytes)]
  {
    var order := Order(0, role, OnlyServer());
    var answer := [Poll] + ([Perform(false, Only(1))] + [Perform(false, Only(1))]);
    Orders(s, role);
    OneStep(s, order);
    var t := Apply(s, order);
    CarriesOut(t, role);
    OnlyOneGets(t.clients, Message(SERVER, role, Shutdown, Bytes), 1, 1);
    RunOn(s, [order], answer);
    acts := [order] + answer;
  }

  /** With a manager, there is a run in which clients of any role are stopped. */
  lemma OrdersCanStopClients(logCapacity: nat, role: Component)
    requires IsClient(role)
    ensures var roles := [MANAGER, role, LOGS_COLLECTOR];
            exists acts ::
              && IsRun(roles, logCapacity, acts) && |End(roles, logCapacity, acts).clients| == 3
              && !End(roles, logCapacity, acts).clients[1].running
  {
    var roles := [MANAGER, role, LOGS_COLLECTOR];
    var s := Initial(roles, logCapacity);
    var acts := OrderReachesClient(s, role);
    var t := After(s, acts);
    ShutdownReaches(t.clients[1].inbox[0], role);
    OneStep(t, Consume(1));
    RunOn(s, acts, [Consume(1)]);
    assert IsRun(roles, logCapacity, acts + [Consume(1)]);
  }
}
