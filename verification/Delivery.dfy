/**
 What the network of os_ihw4/mark-10 does to datagrams: each component receives each datagram once, or
 has it in its inbox, or has lost its copy.
 */
module Delivery {
  import opened Messages
  import opened Network
  import opened Prelude
  import opened Sums

  // --- one copy -------------------------------------------------------------------------------

  /** A copy adds its message to an inbox, or is recorded as lost. */
  lemma ReceiveTotal<K>(f: (K, Message) -> int, k: K, inbox: seq<Message>, m: Message, copy: Copy)
    ensures Total(f, k, Receive(inbox, m, copy)) + Total(f, k, LostCopy(m, copy)) == Total(f, k, inbox) + f(k, m)
    ensures |inbox| <= |Receive(inbox, m, copy)| <= |inbox| + 1
  {
    assert [m][1..] == [];
    if copy.Arrives? {
      var p := Min(copy.place, |inbox|);
      var before, behind := inbox[..p], inbox[p..];
      TotalConcat(f, k, before, behind);
      assert inbox == before + behind;
      TotalConcat(f, k, before + [m], behind);
      TotalConcat(f, k, before, [m]);
    }
  }

  /** A copy adds at most its message. */
  lemma ReceiveAtMost<K>(f: (K, Message) -> int, k: K, inbox: seq<Message>, m: Message, copy: Copy)
    requires 0 <= f(k, m)
    ensures Total(f, k, Receive(inbox, m, copy)) <= Total(f, k, inbox) + f(k, m)
    ensures |Receive(inbox, m, copy)| <= |inbox| + 1
  {
    ReceiveTotal(f, k, inbox, m, copy);
    TotalAtLeast(f, k, LostCopy(m, copy), 0);
  }

  lemma ReceiveMember(inbox: seq<Message>, m: Message, copy: Copy, x: Message)
    requires x in Receive(inbox, m, copy)
    ensures x == m || x in inbox
  {
  }

  // --- one copy for each client ---------------------------------------------------------------

  /** The copy of client `i`. */
  function CopyFor(clients: seq<Client>, copies: seq<Copy>, i: nat): Copy
    requires i < |clients|
  {
    if i < |copies| then copies[i] else Arrives(|clients[i].inbox|)
  }

  lemma {:induction false} DeliverAt(clients: seq<Client>, m: Message, copies: seq<Copy>, i: nat)
    requires i < |clients|
    ensures Deliver(clients, m, copies)[i] == WithCopy(clients[i], m, CopyFor(clients, copies, i))
  {
    if i > 0 {
      DeliverAt(clients[1..], m, if copies == [] then [] else copies[1..], i - 1);
    }
  }

  /** Delivering a message to some inboxes adds at most `g` per client to a total of `f`. */
  lemma {:induction false} DeliverBound<K>(
      f: (K, Client) -> int, g: (K, Client) -> int, k: K, clients: seq<Client>, m: Message, copies: seq<Copy>)
    requires forall c, copy | c in clients :: f(k, WithCopy(c, m, copy)) <= f(k, c) + g(k, c)
    ensures Total(f, k, Deliver(clients, m, copies)) <= Total(f, k, clients) + Total(g, k, clients)
  {
    if clients != [] {
      DeliverBound(f, g, k, clients[1..], m, if copies == [] then [] else copies[1..]);
    }
  }

  /** Delivery leaves alone whatever depends on neither the inbox nor the record of losses. */
  lemma {:induction false} DeliverSame<K>(
      f: (K, Client) -> int, k: K, clients: seq<Client>, m: Message, copies: seq<Copy>)
    requires forall c, copy | c in clients :: f(k, WithCopy(c, m, copy)) == f(k, c)
    ensures Total(f, k, Deliver(clients, m, copies)) == Total(f, k, clients)
  {
    if clients != [] {
      DeliverSame(f, k, clients[1..], m, if copies == [] then [] else copies[1..]);
    }
  }

  // --- every datagram, at every component -----------------------------------------------------

  /** By any measure `f`, what was sent is what a component still has to receive, has received, and
      has lost. */
  ghost predicate Balanced<K>(
    f: (K, Message) -> int, k: K, sent: seq<Message>, inbox: seq<Message>, taken: seq<Message>, lost: seq<Message>)
  {
    Total(f, k, sent) == Total(f, k, inbox) + Total(f, k, taken) + Total(f, k, lost)
  }

  ghost predicate ClientBalanced<K>(f: (K, Message) -> int, k: K, sent: seq<Message>, c: Client) {
    Balanced(f, k, sent, c.inbox, c.taken, c.lost)
  }

  ghost predicate MailBalanced<K>(f: (K, Message) -> int, k: K, s: State) {
    && Balanced(f, k, s.sent, s.server.inbox, s.server.taken, s.server.lost)
    && forall i {:trigger s.clients[i]} | 0 <= i < |s.clients| :: ClientBalanced(f, k, s.sent, s.clients[i])
  }

  /** One more datagram, and one more copy. */
  lemma CopyBalanced<K>(f: (K, Message) -> int, k: K, sent: seq<Message>, inbox: seq<Message>,
                        taken: seq<Message>, lost: seq<Message>, m: Message, copy: Copy)
    requires Balanced(f, k, sent, inbox, taken, lost)
    ensures Balanced(f, k, sent + [m], Receive(inbox, m, copy), taken, lost + LostCopy(m, copy))
  {
    TotalAppend(f, k, sent, m);
    ReceiveTotal(f, k, inbox, m, copy);
    TotalConcat(f, k, lost, LostCopy(m, copy));
  }

  /** The head of an inbox is received. */
  lemma HeadBalanced<K>(f: (K, Message) -> int, k: K, sent: seq<Message>, inbox: seq<Message>,
                        taken: seq<Message>, lost: seq<Message>)
    requires Balanced(f, k, sent, inbox, taken, lost) && inbox != []
    ensures Balanced(f, k, sent, inbox[1..], taken + [inbox[0]], lost)
  {
    TotalAppend(f, k, taken, inbox[0]);
  }

  lemma BroadcastBalanced<K>(f: (K, Message) -> int, k: K, s: State, m: Message, transit: Transit)
    requires MailBalanced(f, k, s)
    ensures MailBalanced(f, k, Broadcast(s, m, transit))
  {
    var t := Broadcast(s, m, transit);
    CopyBalanced(f, k, s.sent, s.server.inbox, s.server.taken, s.server.lost, m, transit.server);
    forall i | 0 <= i < |t.clients|
      ensures ClientBalanced(f, k, t.sent, t.clients[i])
    {
      var c := s.clients[i];
      DeliverAt(s.clients, m, transit.clients, i);
      assert ClientBalanced(f, k, s.sent, c);
      CopyBalanced(f, k, s.sent, c.inbox, c.taken, c.lost, m, CopyFor(s.clients, transit.clients, i));
    }
  }

  lemma PerformBalanced<K>(f: (K, Message) -> int, k: K, s: State, mutexFree: bool, transit: Transit)
    requires MailBalanced(f, k, s) && s.server.tasks != []
    ensures MailBalanced(f, k, PerformTask(s, mutexFree, transit))
  {
    var t := s.(server := s.server.(tasks := s.server.tasks[1..]));
    var task := s.server.tasks[0];
    assert MailBalanced(f, k, t);
    if task.Send? {
      BroadcastBalanced(f, k, t, Message(SERVER, task.receiver, task.kind, task.content), transit);
    }
  }

  lemma ConsumeBalanced<K>(f: (K, Message) -> int, k: K, s: State, i: nat)
    requires MailBalanced(f, k, s) && Enabled(s, Consume(i))
    ensures MailBalanced(f, k, Apply(s, Consume(i)))
  {
    var c := s.clients[i];
    assert ClientBalanced(f, k, s.sent, c);
    HeadBalanced(f, k, s.sent, c.inbox, c.taken, c.lost);
  }

  lemma ResendBalanced<K>(f: (K, Message) -> int, k: K, s: State, i: nat, transit: Transit)
    requires MailBalanced(f, k, s) && Enabled(s, Resend(i, transit))
    ensures MailBalanced(f, k, Apply(s, Resend(i, transit)))
  {
    var c := s.clients[i];
    assert ClientBalanced(f, k, s.sent, c);
    BroadcastBalanced(f, k, s.(clients := s.clients[i := c.(held := None)]),
                      Message(c.role, SERVER, PinTransferring, PinContent(c.held.value)), transit);
  }

  lemma StepBalanced<K>(f: (K, Message) -> int, k: K, s: State, a: Action)
    requires MailBalanced(f, k, s) && Enabled(s, a)
    ensures MailBalanced(f, k, Apply(s, a))
  {
    match a {
      case Announce(i, transit) =>
        BroadcastBalanced(f, k, s, Message(s.clients[i].role, SERVER, NewClient, Bytes), transit);
      case Produce(i, pin, transit) =>
        BroadcastBalanced(f, k, s, Message(s.clients[i].role, SERVER, PinTransferring, PinContent(pin)), transit);
      case Order(i, target, transit) =>
        BroadcastBalanced(f, k, s, Message(s.clients[i].role, SERVER, ManagerCommand, CommandContent(target)), transit);
      case Consume(i) => ConsumeBalanced(f, k, s, i);
      case Resend(i, transit) => ResendBalanced(f, k, s, i, transit);
      case Poll => HeadBalanced(f, k, s.sent, s.server.inbox, s.server.taken, s.server.lost);
      case Perform(mutexFree, transit) => PerformBalanced(f, k, s, mutexFree, transit);
      case SendLog(transit) =>
        BroadcastBalanced(f, k, s.(server := s.server.(logInHand := false)), Message(SERVER, LOGS_COLLECTOR, Log, Bytes), transit);
      case SayFarewell(transit) =>
        BroadcastBalanced(f, k, s.(server := s.server.(farewell := true)), Message(SERVER, ANY_CLIENT, Shutdown, Bytes), transit);
      case _ =>
    }
  }

  lemma {:induction false} RunBalanced<K>(f: (K, Message) -> int, k: K, s: State, acts: seq<Action>)
    requires MailBalanced(f, k, s) && Executable(s, acts)
    ensures MailBalanced(f, k, After(s, acts))
    decreases |acts|
  {
    if acts != [] {
      StepBalanced(f, k, s, acts[0]);
      RunBalanced(f, k, Apply(s, acts[0]), acts[1..]);
    }
  }

  /** Conservation of datagrams: over every run, by any measure, what was sent by anybody is at the
      server, and at each client, waiting, received, or lost. */
  lemma EveryDatagramIsAccountedFor<K>(
      roles: seq<Component>, logCapacity: nat, acts: seq<Action>, f: (K, Message) -> int, k: K)
    requires Executable(Initial(roles, logCapacity), acts)
    ensures MailBalanced(f, k, After(Initial(roles, logCapacity), acts))
  {
    RunBalanced(f, k, Initial(roles, logCapacity), acts);
  }

  // --- roles ----------------------------------------------------------------------------------

  ghost function HasRole(role: Component, c: Client): int {
    if c.role == role then 1 else 0
  }

  /** The number of clients with a role. */
  ghost function Count(roles: seq<Component>, role: Component): nat {
    if roles == [] then 0 else (if roles[0] == role then 1 else 0) + Count(roles[1..], role)
  }

  /** The clients have these roles, in this order. */
  ghost predicate WithRoles(clients: seq<Client>, roles: seq<Component>) {
    |clients| == |roles| && forall i {:trigger clients[i]} | 0 <= i < |roles| :: clients[i].role == roles[i]
  }

  lemma {:induction false} RolesAreCounted(clients: seq<Client>, roles: seq<Component>, role: Component)
    requires WithRoles(clients, roles)
    ensures Total(HasRole, role, clients) == Count(roles, role)
  {
    if roles != [] {
      RolesAreCounted(clients[1..], roles[1..], role);
    }
  }

  lemma DeliverKeepsRoles(clients: seq<Client>, roles: seq<Component>, m: Message, copies: seq<Copy>)
    requires WithRoles(clients, roles)
    ensures WithRoles(Deliver(clients, m, copies), roles)
  {
    forall i: nat | i < |clients|
      ensures Deliver(clients, m, copies)[i].role == roles[i]
    {
      DeliverAt(clients, m, copies, i);
    }
  }

  lemma StepKeepsRoles(s: State, a: Action, roles: seq<Component>)
    requires Enabled(s, a) && WithRoles(s.clients, roles)
    ensures WithRoles(Apply(s, a).clients, roles)
  {
    match a {
      case Announce(i, transit) =>
        DeliverKeepsRoles(s.clients, roles, Message(s.clients[i].role, SERVER, NewClient, Bytes), transit.clients);
      case Produce(i, pin, transit) =>
        DeliverKeepsRoles(s.clients, roles, Message(s.clients[i].role, SERVER, PinTransferring, PinContent(pin)),
                          transit.clients);
      case Order(i, target, transit) =>
        DeliverKeepsRoles(s.clients, roles, Message(s.clients[i].role, SERVER, ManagerCommand, CommandContent(target)),
                          transit.clients);
      case Resend(i, transit) =>
        var c := s.clients[i];
        DeliverKeepsRoles(s.clients[i := c.(held := None)], roles,
                          Message(c.role, SERVER, PinTransferring, PinContent(c.held.value)), transit.clients);
      case Perform(_, transit) =>
        var task := s.server.tasks[0];
        if task.Send? {
          DeliverKeepsRoles(s.clients, roles, Message(SERVER, task.receiver, task.kind, task.content), transit.clients);
        }
      case SendLog(transit) =>
        DeliverKeepsRoles(s.clients, roles, Message(SERVER, LOGS_COLLECTOR, Log, Bytes), transit.clients);
      case SayFarewell(transit) =>
        DeliverKeepsRoles(s.clients, roles, Message(SERVER, ANY_CLIENT, Shutdown, Bytes), transit.clients);
      case _ =>
    }
  }
}
