/**
 Where the pins of the broadcast protocol come from and where they go, over every run: each pin is
 produced, accepted, held, resent, passed on by the server, or lost, and is counted at every stage.
 */
module Provenance {
  import opened Delivery
  import opened Messages
  import opened Network
  import opened Prelude
  import opened Sums
  import PinCheck

  // --- who addresses whom ---------------------------------------------------------------------

  ghost predicate ClientOk(c: Client) {
    IsClient(c.role) && (forall m | m in c.inbox :: WellAddressed(m)) && (c.held.Some? ==> c.role == SECOND_STAGE)
  }

  /** The datagram an operation of the poller sends, if it sends one, obeys the rules. */
  ghost predicate TaskOk(task: Task) {
    task.Send? ==> WellAddressed(Message(SERVER, task.receiver, task.kind, task.content))
  }

  /** Every message sent or under way, and every message the poller is about to send, obeys the rules. */
  ghost predicate Disciplined(s: State) {
    && (forall m | m in s.sent :: WellAddressed(m))
    && (forall m | m in s.server.inbox :: WellAddressed(m))
    && (forall task | task in s.server.tasks :: TaskOk(task))
    && (forall i {:trigger s.clients[i]} | 0 <= i < |s.clients| :: ClientOk(s.clients[i]))
  }

  lemma CopyOk(c: Client, m: Message, copy: Copy)
    requires ClientOk(c) && WellAddressed(m)
    ensures ClientOk(WithCopy(c, m, copy))
  {
    forall x | x in WithCopy(c, m, copy).inbox
      ensures WellAddressed(x)
    {
      ReceiveMember(c.inbox, m, copy, x);
    }
  }

  lemma BroadcastDisciplined(s: State, m: Message, transit: Transit)
    requires Disciplined(s) && WellAddressed(m)
    ensures Disciplined(Broadcast(s, m, transit))
  {
    var t := Broadcast(s, m, transit);
    forall x | x in t.server.inbox
      ensures WellAddressed(x)
    {
      ReceiveMember(s.server.inbox, m, transit.server, x);
    }
    forall i | 0 <= i < |t.clients|
      ensures ClientOk(t.clients[i])
    {
      DeliverAt(s.clients, m, transit.clients, i);
      CopyOk(s.clients[i], m, CopyFor(s.clients, transit.clients, i));
    }
  }

  lemma ServerBroadcastDisciplined(s: State, receiver: Component, kind: Kind, content: Content, transit: Transit)
    requires Disciplined(s) && WellAddressed(Message(SERVER, receiver, kind, content))
    ensures Disciplined(ServerBroadcast(s, receiver, kind, content, transit))
  {
    BroadcastDisciplined(s, Message(SERVER, receiver, kind, content), transit);
  }

  lemma ClientSendDisciplined(s: State, i: nat, kind: Kind, content: Content, transit: Transit)
    requires Disciplined(s) && i < |s.clients| && WellAddressed(Message(s.clients[i].role, SERVER, kind, content))
    ensures Disciplined(ClientSend(s, i, kind, content, transit))
  {
    BroadcastDisciplined(s, Message(s.clients[i].role, SERVER, kind, content), transit);
  }

  /** Whatever the poller plans to send obeys the rules. */
  lemma PlanOk(m: Message)
    requires WellAddressed(m)
    ensures forall task | task in Plan(m) :: TaskOk(task)
  {
  }

  lemma ConsumeDisciplined(s: State, i: nat)
    requires Disciplined(s) && Enabled(s, Consume(i))
    ensures Disciplined(Apply(s, Consume(i)))
  {
    var c := s.clients[i];
    assert ClientOk(c);
    assert ClientOk(ClientConsume(c));
  }

  lemma ResendDisciplined(s: State, i: nat, transit: Transit)
    requires Disciplined(s) && Enabled(s, Resend(i, transit))
    ensures Disciplined(Apply(s, Resend(i, transit)))
  {
    var c := s.clients[i];
    assert ClientOk(c) && ClientOk(c.(held := None));
    ClientSendDisciplined(s.(clients := s.clients[i := c.(held := None)]), i, PinTransferring,
                          PinContent(c.held.value), transit);
  }

  lemma PerformDisciplined(s: State, mutexFree: bool, transit: Transit)
    requires Disciplined(s) && s.server.tasks != []
    ensures Disciplined(PerformTask(s, mutexFree, transit))
  {
    var t := s.(server := s.server.(tasks := s.server.tasks[1..]));
    var task := s.server.tasks[0];
    assert TaskOk(task) && Disciplined(t);
    if task.Send? {
      ServerBroadcastDisciplined(t, task.receiver, task.kind, task.content, transit);
    }
  }

  /** No component ever sends a message the addressing rules do not allow. */
  lemma StepDisciplined(s: State, a: Action)
    requires Disciplined(s) && Enabled(s, a)
    ensures Disciplined(Apply(s, a))
  {
    match a {
      case Announce(i, transit) =>
        assert ClientOk(s.clients[i]);
        ClientSendDisciplined(s, i, NewClient, Bytes, transit);
      case Produce(i, pin, transit) => ClientSendDisciplined(s, i, PinTransferring, PinContent(pin), transit);
      case Order(i, target, transit) => ClientSendDisciplined(s, i, ManagerCommand, CommandContent(target), transit);
      case Consume(i) => ConsumeDisciplined(s, i);
      case Resend(i, transit) => ResendDisciplined(s, i, transit);
      case Poll => PlanOk(s.server.inbox[0]);
      case Perform(mutexFree, transit) => PerformDisciplined(s, mutexFree, transit);
      case SendLog(transit) =>
        ServerBroadcastDisciplined(s.(server := s.server.(logInHand := false)), LOGS_COLLECTOR, Log, Bytes, transit);
      case SayFarewell(transit) =>
        ServerBroadcastDisciplined(s.(server := s.server.(farewell := true)), ANY_CLIENT, Shutdown, Bytes, transit);
      case _ =>
    }
  }

  // --- what the server owes for a message -----------------------------------------------------

  /** What the server sends because of a message: a pin to the next stage (this pin, or any), the
      result of an order, or a shutdown message to the clients it names. */
  datatype Reaction =
    | ToSecond(which: Option<Pin>)
    | ToThird(which: Option<Pin>)
    | Answer(result: CommandResult)
    | Stop(target: Component)

  predicate Fits(which: Option<Pin>, pin: Pin) {
    which.None? || which.value == pin
  }

  predicate IsPinMessage(m: Message, sender: Component, receiver: Component, which: Option<Pin>) {
    m.sender == sender && m.receiver == receiver && m.kind == PinTransferring && Fits(which, PinOf(m))
  }

  predicate IsOrder(m: Message) {
    m.sender == MANAGER && m.receiver == SERVER && m.kind == ManagerCommand && m.content.CommandContent?
  }

  /** The result of an order: every component can be stopped, and nothing else. */
  function Deserved(target: Component): CommandResult {
    if target == SERVER || IsClient(target) then Success else InvalidArgs
  }

  /** 1 if message `m` to the server calls for reaction `k`. */
  ghost function Calls(k: Reaction, m: Message): int {
    match k
    case ToSecond(which) => if IsPinMessage(m, FIRST_STAGE, SERVER, which) then 1 else 0
    case ToThird(which) => if IsPinMessage(m, SECOND_STAGE, SERVER, which) then 1 else 0
    case Answer(result) => if IsOrder(m) && Deserved(m.content.target) == result then 1 else 0
    case Stop(target) => if IsOrder(m) && IsClient(target) && m.content.target == target then 1 else 0
  }

  /** 1 if message `m` is reaction `k`. */
  ghost function Is(k: Reaction, m: Message): int {
    match k
    case ToSecond(which) => if IsPinMessage(m, SERVER, SECOND_STAGE, which) then 1 else 0
    case ToThird(which) => if IsPinMessage(m, SERVER, THIRD_STAGE, which) then 1 else 0
    case Answer(result) => if m == Message(SERVER, MANAGER, ManagerCommandResult, ResultContent(result)) then 1 else 0
    case Stop(target) => if IsClient(target) && m.sender == SERVER && m.receiver == target && m.kind == Shutdown then 1 else 0
  }

  /** 1 if an operation of the poller is reaction `k`. */
  ghost function Due(k: Reaction, task: Task): int {
    if task.Send? then Is(k, Message(SERVER, task.receiver, task.kind, task.content)) else 0
  }

  /** The reactions called for by the messages received are those sent and those about to be sent. */
  ghost predicate Settled(k: Reaction, s: State) {
    Total(Calls, k, s.server.taken) == Total(Due, k, s.server.tasks) + Total(Is, k, s.sent)
  }

  /** The poller plans exactly the reactions a message calls for. */
  lemma PlanSettles(k: Reaction, m: Message)
    requires WellAddressed(m)
    ensures Total(Due, k, Plan(m)) == Calls(k, m)
  {
    if m.sender != SERVER && m.kind == PinTransferring {
      var plan := PinPlan(m);
      TotalAppend(Due, k, [Enqueue, Enqueue], plan[2]);
      TotalConstant(Due, k, [Enqueue, Enqueue], 0);
    } else if m.sender != SERVER && m.kind == ManagerCommand {
      CommandSettles(k, m);
    } else if m.sender != SERVER {
      assert [Enqueue][1..] == [];
    }
  }

  lemma CommandSettles(k: Reaction, m: Message)
    requires WellAddressed(m) && m.sender != SERVER && m.kind == ManagerCommand
    ensures Total(Due, k, CommandPlan(m)) == Calls(k, m)
  {
    var plan := CommandPlan(m);
    var n := |plan|;
    var start := if IsClient(m.content.target) then [Enqueue, plan[1]] else [Enqueue];
    assert plan == start + [Enqueue] + [plan[n - 2]] + [Enqueue];
    TotalAppend(Due, k, start + [Enqueue] + [plan[n - 2]], Enqueue);
    TotalAppend(Due, k, start + [Enqueue], plan[n - 2]);
    TotalAppend(Due, k, start, Enqueue);
    assert [Enqueue][1..] == [];
    if |start| == 2 {
      TotalAppend(Due, k, [Enqueue], plan[1]);
    }
  }

  /** A datagram that is no reaction leaves the account alone. */
  lemma OtherSettled(k: Reaction, s: State, m: Message, transit: Transit)
    requires Settled(k, s) && Is(k, m) == 0
    ensures Settled(k, Broadcast(s, m, transit))
  {
    TotalAppend(Is, k, s.sent, m);
  }

  lemma PollSettled(k: Reaction, s: State)
    requires Disciplined(s) && Settled(k, s) && Enabled(s, Poll)
    ensures Settled(k, Apply(s, Poll))
  {
    var m := s.server.inbox[0];
    TotalAppend(Calls, k, s.server.taken, m);
    PlanSettles(k, m);
  }

  lemma PerformSettled(k: Reaction, s: State, mutexFree: bool, transit: Transit)
    requires Settled(k, s) && s.server.tasks != []
    ensures Settled(k, PerformTask(s, mutexFree, transit))
  {
    var task := s.server.tasks[0];
    if task.Send? {
      TotalAppend(Is, k, s.sent, Message(SERVER, task.receiver, task.kind, task.content));
    }
  }

  lemma StepSettled(k: Reaction, s: State, a: Action)
    requires Disciplined(s) && Settled(k, s) && Enabled(s, a)
    ensures Settled(k, Apply(s, a))
  {
    match a {
      case Announce(i, transit) =>
        assert ClientOk(s.clients[i]);
        OtherSettled(k, s, Message(s.clients[i].role, SERVER, NewClient, Bytes), transit);
      case Produce(i, pin, transit) =>
        OtherSettled(k, s, Message(s.clients[i].role, SERVER, PinTransferring, PinContent(pin)), transit);
      case Order(i, target, transit) =>
        OtherSettled(k, s, Message(s.clients[i].role, SERVER, ManagerCommand, CommandContent(target)), transit);
      case Resend(i, transit) =>
        var c := s.clients[i];
        OtherSettled(k, s.(clients := s.clients[i := c.(held := None)]),
                     Message(c.role, SERVER, PinTransferring, PinContent(c.held.value)), transit);
      case Poll => PollSettled(k, s);
      case Perform(mutexFree, transit) => PerformSettled(k, s, mutexFree, transit);
      case SendLog(transit) =>
        OtherSettled(k, s.(server := s.server.(logInHand := false)), Message(SERVER, LOGS_COLLECTOR, Log, Bytes), transit);
      case SayFarewell(transit) =>
        OtherSettled(k, s.(server := s.server.(farewell := true)), Message(SERVER, ANY_CLIENT, Shutdown, Bytes), transit);
      case _ =>
    }
  }

  // --- what second stage workers do with pins -------------------------------------------------

  /** The pins that fit and that a second stage worker has accepted. */
  ghost function Accepted(which: Option<Pin>, c: Client): int {
    if c.role == SECOND_STAGE then Total(Is, ToSecond(which), c.taken) else 0
  }

  ghost function Holds(which: Option<Pin>, c: Client): int {
    if c.held.Some? && Fits(which, c.held.value) then 1 else 0
  }

  ghost function Resent(which: Option<Pin>, m: Message): int {
    Calls(ToThird(which), m)
  }

  /** The pins accepted by the second stage are those it holds and those it has resent. */
  ghost predicate Sharpened(which: Option<Pin>, s: State) {
    Total(Accepted, which, s.clients) == Total(Holds, which, s.clients) + Total(Resent, which, s.sent)
  }

  lemma BroadcastSharpened(which: Option<Pin>, s: State, m: Message, transit: Transit)
    requires Sharpened(which, s) && Resent(which, m) == 0
    ensures Sharpened(which, Broadcast(s, m, transit))
  {
    TotalAppend(Resent, which, s.sent, m);
    DeliverSame(Accepted, which, s.clients, m, transit.clients);
    DeliverSame(Holds, which, s.clients, m, transit.clients);
  }

  /** A worker that receives a pin holds it. */
  lemma ConsumeSharpened(which: Option<Pin>, s: State, i: nat)
    requires Disciplined(s) && Sharpened(which, s) && Enabled(s, Consume(i))
    ensures Sharpened(which, Apply(s, Consume(i)))
  {
    var c := s.clients[i];
    var d := ClientConsume(c);
    assert ClientOk(c) && WellAddressed(c.inbox[0]);
    TotalAppend(Is, ToSecond(which), c.taken, c.inbox[0]);
    TotalUpdate(Accepted, which, s.clients, i, d);
    TotalUpdate(Holds, which, s.clients, i, d);
  }

  /** A worker that resends a pin has held it. */
  lemma ResendSharpened(which: Option<Pin>, s: State, i: nat, transit: Transit)
    requires Sharpened(which, s) && Enabled(s, Resend(i, transit))
    ensures Sharpened(which, Apply(s, Resend(i, transit)))
  {
    var c := s.clients[i];
    var d := c.(held := None);
    var m := Message(SECOND_STAGE, SERVER, PinTransferring, PinContent(c.held.value));
    TotalUpdate(Accepted, which, s.clients, i, d);
    TotalUpdate(Holds, which, s.clients, i, d);
    TotalAppend(Resent, which, s.sent, m);
    DeliverSame(Accepted, which, s.clients[i := d], m, transit.clients);
    DeliverSame(Holds, which, s.clients[i := d], m, transit.clients);
  }

  lemma StepSharpened(which: Option<Pin>, s: State, a: Action)
    requires Disciplined(s) && Sharpened(which, s) && Enabled(s, a)
    ensures Sharpened(which, Apply(s, a))
  {
    match a {
      case Announce(i, transit) =>
        BroadcastSharpened(which, s, Message(s.clients[i].role, SERVER, NewClient, Bytes), transit);
      case Produce(i, pin, transit) =>
        BroadcastSharpened(which, s, Message(FIRST_STAGE, SERVER, PinTransferring, PinContent(pin)), transit);
      case Order(i, target, transit) =>
        BroadcastSharpened(which, s, Message(MANAGER, SERVER, ManagerCommand, CommandContent(target)), transit);
      case Consume(i) => ConsumeSharpened(which, s, i);
      case Resend(i, transit) => ResendSharpened(which, s, i, transit);
      case Perform(mutexFree, transit) =>
        var task := s.server.tasks[0];
        if task.Send? {
          BroadcastSharpened(which, s.(server := s.server.(tasks := s.server.tasks[1..])),
                             Message(SERVER, task.receiver, task.kind, task.content), transit);
        }
      case SendLog(transit) =>
        BroadcastSharpened(which, s.(server := s.server.(logInHand := false)),
                           Message(SERVER, LOGS_COLLECTOR, Log, Bytes), transit);
      case SayFarewell(transit) =>
        BroadcastSharpened(which, s.(server := s.server.(farewell := true)),
                           Message(SERVER, ANY_CLIENT, Shutdown, Bytes), transit);
      case _ =>
    }
  }

  // --- what clients begin ---------------------------------------------------------------------

  /** 1 if an action of a client begins what ends in reaction `k`. */
  ghost function Begins(k: Reaction, a: Action): int {
    match a
    case Produce(_, pin, _) => if k.ToSecond? && Fits(k.which, pin) then 1 else 0
    case Order(_, target, _) =>
      if (k.Answer? && Deserved(target) == k.result) || (k.Stop? && IsClient(target) && target == k.target) then 1 else 0
    case _ => 0
  }

  /** Only produced pins and given orders call for anything; resent pins are counted above. */
  lemma StepBegins(k: Reaction, s: State, a: Action)
    requires Disciplined(s) && Enabled(s, a) && !k.ToThird?
    ensures Total(Calls, k, Apply(s, a).sent) == Total(Calls, k, s.sent) + Begins(k, a)
  {
    match a {
      case Announce(i, transit) => TotalAppend(Calls, k, s.sent, Message(s.clients[i].role, SERVER, NewClient, Bytes));
      case Produce(i, pin, transit) =>
        TotalAppend(Calls, k, s.sent, Message(FIRST_STAGE, SERVER, PinTransferring, PinContent(pin)));
      case Order(i, target, transit) =>
        TotalAppend(Calls, k, s.sent, Message(MANAGER, SERVER, ManagerCommand, CommandContent(target)));
      case Resend(i, transit) =>
        TotalAppend(Calls, k, s.sent,
                    Message(SECOND_STAGE, SERVER, PinTransferring, PinContent(s.clients[i].held.value)));
      case Perform(_, transit) =>
        var task := s.server.tasks[0];
        if task.Send? {
          TotalAppend(Calls, k, s.sent, Message(SERVER, task.receiver, task.kind, task.content));
        }
      case SendLog(transit) => TotalAppend(Calls, k, s.sent, Message(SERVER, LOGS_COLLECTOR, Log, Bytes));
      case SayFarewell(transit) => TotalAppend(Calls, k, s.sent, Message(SERVER, ANY_CLIENT, Shutdown, Bytes));
      case _ =>
    }
  }

  // --- every run ------------------------------------------------------------------------------

  ghost predicate AllClients(roles: seq<Component>) {
    forall role | role in roles :: IsClient(role)
  }

  /** `acts` is a run of the system with these clients. */
  ghost predicate IsRun(roles: seq<Component>, logCapacity: nat, acts: seq<Action>) {
    AllClients(roles) && Executable(Initial(roles, logCapacity), acts)
  }

  ghost function End(roles: seq<Component>, logCapacity: nat, acts: seq<Action>): State
    requires IsRun(roles, logCapacity, acts)
  {
    After(Initial(roles, logCapacity), acts)
  }

  lemma {:induction false} RunDisciplined(s: State, acts: seq<Action>, roles: seq<Component>)
    requires Disciplined(s) && WithRoles(s.clients, roles) && Executable(s, acts)
    ensures Disciplined(After(s, acts)) && WithRoles(After(s, acts).clients, roles)
    decreases |acts|
  {
    if acts != [] {
      StepDisciplined(s, acts[0]);
      StepKeepsRoles(s, acts[0], roles);
      RunDisciplined(Apply(s, acts[0]), acts[1..], roles);
    }
  }

  lemma {:induction false} RunSettled(k: Reaction, s: State, acts: seq<Action>)
    requires Disciplined(s) && Settled(k, s) && Executable(s, acts)
    ensures Settled(k, After(s, acts))
    decreases |acts|
  {
    if acts != [] {
      StepDisciplined(s, acts[0]);
      StepSettled(k, s, acts[0]);
      RunSettled(k, Apply(s, acts[0]), acts[1..]);
    }
  }

  lemma {:induction false} RunSharpened(which: Option<Pin>, s: State, acts: seq<Action>)
    requires Disciplined(s) && Sharpened(which, s) && Executable(s, acts)
    ensures Sharpened(which, After(s, acts))
    decreases |acts|
  {
    if acts != [] {
      StepDisciplined(s, acts[0]);
      StepSharpened(which, s, acts[0]);
      RunSharpened(which, Apply(s, acts[0]), acts[1..]);
    }
  }

  lemma {:induction false} RunBegins(k: Reaction, s: State, acts: seq<Action>)
    requires Disciplined(s) && Executable(s, acts) && !k.ToThird?
    ensures Total(Calls, k, After(s, acts).sent) == Total(Calls, k, s.sent) + Total(Begins, k, acts)
    decreases |acts|
  {
    if acts != [] {
      StepDisciplined(s, acts[0]);
      StepBegins(k, s, acts[0]);
      RunBegins(k, Apply(s, acts[0]), acts[1..]);
    }
  }

  /** In every reachable state, every message sent or under way obeys the addressing rules. */
  lemma AlwaysDisciplined(roles: seq<Component>, logCapacity: nat, acts: seq<Action>)
    requires IsRun(roles, logCapacity, acts)
    ensures Disciplined(End(roles, logCapacity, acts)) && WithRoles(End(roles, logCapacity, acts).clients, roles)
  {
    RunDisciplined(Initial(roles, logCapacity), acts, roles);
  }

  // --- pins, stage by stage -------------------------------------------------------------------

  /**
   Whatever a client's message calls for, the server does exactly once: over every run, the calls made
   are those that wait in the server's inbox or were lost on the way to it, those the poller is about
   to answer, and those it has answered. This goes for each pin from the first stage and from the
   second, for all pins together, for the results of orders, and for the shutdown messages they ask for.
   */
  lemma EveryCallIsAnswered(roles: seq<Component>, logCapacity: nat, acts: seq<Action>, k: Reaction)
    requires IsRun(roles, logCapacity, acts)
    ensures var t := End(roles, logCapacity, acts);
            Total(Calls, k, t.sent)
            == Total(Calls, k, t.server.inbox) + Total(Calls, k, t.server.lost)
               + Total(Due, k, t.server.tasks) + Total(Is, k, t.sent)
  {
    RunSettled(k, Initial(roles, logCapacity), acts);
    EveryDatagramIsAccountedFor(roles, logCapacity, acts, Calls, k);
  }

  /** What calls for a reaction is exactly what clients have produced and ordered. */
  lemma CallsAreBegun(roles: seq<Component>, logCapacity: nat, acts: seq<Action>, k: Reaction)
    requires IsRun(roles, logCapacity, acts) && !k.ToThird?
    ensures Total(Calls, k, End(roles, logCapacity, acts).sent) == Total(Begins, k, acts)
  {
    RunBegins(k, Initial(roles, logCapacity), acts);
  }

  /** The second stage resends every pin it accepts, once, except those its workers still hold. */
  lemma AcceptedPinsAreResent(roles: seq<Component>, logCapacity: nat, acts: seq<Action>, which: Option<Pin>)
    requires IsRun(roles, logCapacity, acts)
    ensures Sharpened(which, End(roles, logCapacity, acts))
  {
    var s := Initial(roles, logCapacity);
    TotalConstant(Accepted, which, s.clients, 0);
    TotalConstant(Holds, which, s.clients, 0);
    RunSharpened(which, s, acts);
  }

  /** If nothing that clients sent to the server was lost or waits there, all reactions were sent. */
  lemma ReachedServerReacts(roles: seq<Component>, logCapacity: nat, acts: seq<Action>, k: Reaction)
    requires IsRun(roles, logCapacity, acts) && !k.ToThird?
    requires var server := End(roles, logCapacity, acts).server;
             server.inbox == [] && server.tasks == [] && server.lost == []
    ensures Total(Is, k, End(roles, logCapacity, acts).sent) == Total(Begins, k, acts)
  {
    EveryCallIsAnswered(roles, logCapacity, acts, k);
    CallsAreBegun(roles, logCapacity, acts, k);
  }

  /** Nothing is under way, and nobody holds a pin. */
  ghost predicate AtRest(s: State) {
    s.server.inbox == [] && s.server.tasks == [] && forall c | c in s.clients :: c.inbox == [] && c.held.None?
  }

  /** No copy of a datagram was ever lost. */
  ghost predicate Lossless(s: State) {
    s.server.lost == [] && forall c | c in s.clients :: c.lost == []
  }

  /** A client takes each reaction broadcast to it once, unless the copy is lost or still waiting. */
  lemma EveryClientGetsEverything(roles: seq<Component>, logCapacity: nat, acts: seq<Action>, k: Reaction, i: nat)
    requires IsRun(roles, logCapacity, acts) && i < |End(roles, logCapacity, acts).clients|
    ensures var t := End(roles, logCapacity, acts);
            Total(Is, k, t.clients[i].inbox) + Total(Is, k, t.clients[i].taken) + Total(Is, k, t.clients[i].lost)
            == Total(Is, k, t.sent)
  {
    var t := End(roles, logCapacity, acts);
    EveryDatagramIsAccountedFor(roles, logCapacity, acts, Is, k);
    assert ClientBalanced(Is, k, t.sent, t.clients[i]);
  }

  predicate Reacts(a: Action) {
    a.Consume? || a.Resend? || a.Poll? || a.Perform? || a.TakeLog? || a.SendLog? || a.SayFarewell?
  }

  /** With nothing more to react to, clients that run have received and resent everything, a server that
      polls has answered everything, one that logs has sent its logs, and one that has ended has said
      farewell. */
  lemma QuietMeansAtRest(s: State)
    requires Disciplined(s) && forall a | Enabled(s, a) :: !Reacts(a)
    ensures (forall c | c in s.clients :: c.running) && s.server.polling ==> AtRest(s)
    ensures s.server.tasks == [] && !s.server.logInHand && (s.server.logging ==> s.server.logs == 0)
    ensures !s.server.polling && !s.server.logging ==> s.server.farewell
  {
    var transit := Transit(Lost, []);
    assert !Enabled(s, Perform(false, transit)) && !Enabled(s, Poll);
    assert !Enabled(s, TakeLog) && !Enabled(s, SendLog(transit)) && !Enabled(s, SayFarewell(transit));
    forall c | c in s.clients && c.running
      ensures c.inbox == [] && c.held.None?
    {
      var i :| 0 <= i < |s.clients| && s.clients[i] == c;
      assert ClientOk(s.clients[i]);
      assert !Enabled(s, Resend(i, transit)) && !Enabled(s, Consume(i));
    }
  }

  /** Workers of the second stage that all accepted `n` pins accepted `n` times their number. */
  lemma {:induction false} AcceptedTogether(clients: seq<Client>, which: Option<Pin>, n: int)
    requires forall c | c in clients && c.role == SECOND_STAGE :: Accepted(which, c) == n
    ensures Total(Accepted, which, clients) == n * Total(HasRole, SECOND_STAGE, clients)
  {
    if clients != [] {
      AcceptedTogether(clients[1..], which, n);
      OneMore(n, HasRole(SECOND_STAGE, clients[0]), Total(HasRole, SECOND_STAGE, clients[1..]));
    }
  }

  lemma OneMore(n: int, a: int, b: int)
    ensures n * (a + b) == n * a + n * b
  {
  }

  /**
   Everything arrives when nothing is lost: once the system is at rest, every pin a first stage worker
   produced was broadcast to the second stage as often as it was produced, accepted as often by each
   worker there, broadcast to the third stage that many times for each second stage worker, and
   accepted as often by each worker of the third stage.
   */
  lemma LosslessRunsDeliverEverything(roles: seq<Component>, logCapacity: nat, acts: seq<Action>, which: Option<Pin>, i: nat)
    requires IsRun(roles, logCapacity, acts)
    requires AtRest(End(roles, logCapacity, acts)) && Lossless(End(roles, logCapacity, acts))
    requires i < |End(roles, logCapacity, acts).clients|
    ensures var t, n := End(roles, logCapacity, acts), Total(Begins, ToSecond(which), acts);
            && Total(Is, ToSecond(which), t.sent) == n
            && Total(Is, ToSecond(which), t.clients[i].taken) == n
            && Total(Is, ToThird(which), t.sent) == n * Count(roles, SECOND_STAGE)
            && Total(Is, ToThird(which), t.clients[i].taken) == n * Count(roles, SECOND_STAGE)
  {
    var t, n := End(roles, logCapacity, acts), Total(Begins, ToSecond(which), acts);
    ReachedServerReacts(roles, logCapacity, acts, ToSecond(which));
    EveryCallIsAnswered(roles, logCapacity, acts, ToThird(which));
    AcceptedPinsAreResent(roles, logCapacity, acts, which);
    forall c | c in t.clients
      ensures Total(Is, ToSecond(which), c.taken) == n && Holds(which, c) == 0
    {
      var j :| 0 <= j < |t.clients| && t.clients[j] == c;
      EveryClientGetsEverything(roles, logCapacity, acts, ToSecond(which), j);
    }
    TotalConstant(Holds, which, t.clients, 0);
    AcceptedTogether(t.clients, which, n);
    AlwaysDisciplined(roles, logCapacity, acts);
    RolesAreCounted(t.clients, roles, SECOND_STAGE);
    SameTotal(which, t.sent);
    EveryClientGetsEverything(roles, logCapacity, acts, ToThird(which), i);
  }

  lemma {:induction false} SameTotal(which: Option<Pin>, messages: seq<Message>)
    ensures Total(Resent, which, messages) == Total(Calls, ToThird(which), messages)
  {
    if messages != [] {
      SameTotal(which, messages[1..]);
    }
  }

  // --- bounds, however much is lost -----------------------------------------------------------

  lemma CountsAreNatural(k: Reaction, messages: seq<Message>)
    ensures 0 <= Total(Calls, k, messages) && 0 <= Total(Is, k, messages)
  {
    TotalAtLeast(Calls, k, messages, 0);
    TotalAtLeast(Is, k, messages, 0);
  }

  /** The server reacts no more often than it is called upon. */
  lemma NoReactionUncalled(roles: seq<Component>, logCapacity: nat, acts: seq<Action>, k: Reaction)
    requires IsRun(roles, logCapacity, acts)
    ensures var t := End(roles, logCapacity, acts); 0 <= Total(Is, k, t.sent) <= Total(Calls, k, t.sent)
  {
    var t := End(roles, logCapacity, acts);
    EveryCallIsAnswered(roles, logCapacity, acts, k);
    CountsAreNatural(k, t.server.inbox);
    CountsAreNatural(k, t.server.lost);
    CountsAreNatural(k, t.sent);
    TotalAtLeast(Due, k, t.server.tasks, 0);
  }

  /** No client takes a reaction more often than it was broadcast. */
  lemma TakenAtMostSent(roles: seq<Component>, logCapacity: nat, acts: seq<Action>, k: Reaction, i: nat)
    requires IsRun(roles, logCapacity, acts) && i < |End(roles, logCapacity, acts).clients|
    ensures var t := End(roles, logCapacity, acts); 0 <= Total(Is, k, t.clients[i].taken) <= Total(Is, k, t.sent)
  {
    var c := End(roles, logCapacity, acts).clients[i];
    EveryClientGetsEverything(roles, logCapacity, acts, k, i);
    CountsAreNatural(k, c.inbox);
    CountsAreNatural(k, c.taken);
    CountsAreNatural(k, c.lost);
  }

  /** What the second stage has resent, its workers have accepted. */
  lemma ResentAtMostAccepted(roles: seq<Component>, logCapacity: nat, acts: seq<Action>, which: Option<Pin>)
    requires IsRun(roles, logCapacity, acts)
    ensures var t := End(roles, logCapacity, acts);
            Total(Calls, ToThird(which), t.sent) <= Total(Accepted, which, t.clients)
  {
    var t := End(roles, logCapacity, acts);
    AcceptedPinsAreResent(roles, logCapacity, acts, which);
    SameTotal(which, t.sent);
    TotalAtLeast(Holds, which, t.clients, 0);
  }

  lemma {:induction false} AcceptedAtMost(clients: seq<Client>, which: Option<Pin>, n: int)
    requires forall c | c in clients && c.role == SECOND_STAGE :: Accepted(which, c) <= n
    ensures Total(Accepted, which, clients) <= n * Total(HasRole, SECOND_STAGE, clients)
  {
    if clients != [] {
      AcceptedAtMost(clients[1..], which, n);
      OneMore(n, HasRole(SECOND_STAGE, clients[0]), Total(HasRole, SECOND_STAGE, clients[1..]));
    }
  }

  /** With S second stage workers, a pin is broadcast to the third stage at most S times as often as
      first stage workers sent it, and so are all pins together. */
  lemma PinsMultiplyBySecondWorkers(roles: seq<Component>, logCapacity: nat, acts: seq<Action>, which: Option<Pin>)
    requires IsRun(roles, logCapacity, acts)
    ensures Total(Is, ToThird(which), End(roles, logCapacity, acts).sent)
            <= Total(Begins, ToSecond(which), acts) * Count(roles, SECOND_STAGE)
  {
    var t := End(roles, logCapacity, acts);
    NoReactionUncalled(roles, logCapacity, acts, ToThird(which));
    NoReactionUncalled(roles, logCapacity, acts, ToSecond(which));
    ResentAtMostAccepted(roles, logCapacity, acts, which);
    CallsAreBegun(roles, logCapacity, acts, ToSecond(which));
    forall c | c in t.clients
      ensures Total(Is, ToSecond(which), c.taken) <= Total(Begins, ToSecond(which), acts)
    {
      var j :| 0 <= j < |t.clients| && t.clients[j] == c;
      TakenAtMostSent(roles, logCapacity, acts, ToSecond(which), j);
    }
    AcceptedAtMost(t.clients, which, Total(Begins, ToSecond(which), acts));
    AlwaysDisciplined(roles, logCapacity, acts);
    RolesAreCounted(t.clients, roles, SECOND_STAGE);
  }

  /** First stage workers send only pins that passed the parity check. */
  lemma {:induction false} ProducedPinsAreStraight(s: State, acts: seq<Action>)
    requires Executable(s, acts)
    ensures forall a | a in acts && a.Produce? :: PinCheck.IsStraight(a.pin)
    decreases |acts|
  {
    if acts != [] {
      ProducedPinsAreStraight(Apply(s, acts[0]), acts[1..]);
    }
  }

  /**
   Every pin a third stage worker accepts was broadcast to that stage by the server, before that
   resent and accepted by a second stage worker, broadcast to the second stage, and produced by a
   first stage worker after the parity check.
   */
  lemma AcceptedPinsPassedEveryStage(roles: seq<Component>, logCapacity: nat, acts: seq<Action>, p: Pin, i: nat)
    requires IsRun(roles, logCapacity, acts) && i < |End(roles, logCapacity, acts).clients|
    requires 0 < Total(Is, ToThird(Some(p)), End(roles, logCapacity, acts).clients[i].taken)
    ensures var t := End(roles, logCapacity, acts);
            && 0 < Total(Is, ToThird(Some(p)), t.sent) && 0 < Total(Calls, ToThird(Some(p)), t.sent)
            && (exists c :: c in t.clients && 0 < Accepted(Some(p), c))
            && 0 < Total(Is, ToSecond(Some(p)), t.sent)
            && (exists a :: a in acts && a.Produce? && a.pin == p && PinCheck.IsStraight(p))
  {
    var t := End(roles, logCapacity, acts);
    TakenAtMostSent(roles, logCapacity, acts, ToThird(Some(p)), i);
    NoReactionUncalled(roles, logCapacity, acts, ToThird(Some(p)));
    ResentAtMostAccepted(roles, logCapacity, acts, Some(p));
    var j := TotalPositive(Accepted, Some(p), t.clients);
    assert t.clients[j] in t.clients;
    TakenAtMostSent(roles, logCapacity, acts, ToSecond(Some(p)), j);
    NoReactionUncalled(roles, logCapacity, acts, ToSecond(Some(p)));
    CallsAreBegun(roles, logCapacity, acts, ToSecond(Some(p)));
    var n := TotalPositive(Begins, ToSecond(Some(p)), acts);
    ProducedPinsAreStraight(Initial(roles, logCapacity), acts);
    assert acts[n] in acts;
  }
}
