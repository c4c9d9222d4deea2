/**
 No broadcast storm: what the server and the workers send in reaction to a message is paid for by
 that message. Every message under way, every operation the poller still has to carry out, every log
 and every held pin has a cost; a reaction strictly lowers the total, so only the sends a client makes
 of its own accord can raise it.
 */
module Storm {
  import opened Messages
  import opened Network
  import opened Prelude
  import opened Sums
  import opened Delivery
  import Provenance

  /** `copies`: how many inboxes a broadcast reaches. `spread`: the cost of one pin in the hands of
      every second stage worker. */
  datatype Scale = Scale(copies: nat, spread: int)

  ghost function ScaleOf(clients: seq<Client>): Scale {
    Scale(|clients| + 1, Total(HasRole, SECOND_STAGE, clients) * (4 * |clients| + 12))
  }

  /** The cost of a pin a second stage worker holds: its copies, two logs, and the copies of the
      broadcast that follows. */
  function HeldCost(k: Scale): int {
    4 * k.copies + 8
  }

  /** The cost of a broadcast by the server. */
  function SendCost(k: Scale, receiver: Component, kind: Kind): int {
    k.copies + 1 + Spreading(k, Message(SERVER, receiver, kind, Bytes))
  }

  /** The cost of an operation of the poller. A log that gets into the queue is sent later on. */
  function TaskCost(k: Scale, task: Task): int {
    match task
    case Enqueue => k.copies + 3
    case Send(receiver, kind, _) => SendCost(k, receiver, kind)
  }

  /** The cost of a message in the server's inbox. */
  function ServerCost(k: Scale, m: Message): int {
    if m.sender == SERVER then 1
    else match m.kind
      case PinTransferring => if m.sender == FIRST_STAGE then 3 * k.copies + 8 + k.spread else 3 * k.copies + 8
      case ManagerCommand => 5 * k.copies + 12
      case _ => k.copies + 4
  }

  function SecondPinCost(h: int, m: Message): int {
    if Addressed(m, SECOND_STAGE) && m.kind == PinTransferring then h else 0
  }

  ghost function ClientCost(k: Scale, c: Client): int {
    |c.inbox|
    + (if c.role == SECOND_STAGE then Total(SecondPinCost, HeldCost(k), c.inbox) else 0)
    + (if c.held.Some? then HeldCost(k) else 0)
  }

  /** Queued logs, the log in hand, and the threads that have yet to end and say farewell. */
  function LogCost(k: Scale, server: Server): int {
    (k.copies + 2) * server.logs
    + (if server.logInHand then k.copies + 1 else 0)
    + (if server.polling then 1 else 0)
    + (if server.logging then 1 else 0)
    + (if server.farewell then 0 else k.copies + 1)
  }

  ghost function Cost(k: Scale, s: State): int {
    Total(ServerCost, k, s.server.inbox) + Total(TaskCost, k, s.server.tasks) + LogCost(k, s.server)
    + Total(ClientCost, k, s.clients)
  }

  ghost function FromServer(k: (), m: Message): int {
    if m.sender == SERVER then 1 else 0
  }

  /** The number of broadcasts by the server so far. */
  ghost function Broadcasts(s: State): int {
    Total(FromServer, (), s.sent)
  }

  ghost predicate Scaled(k: Scale, s: State) {
    k == ScaleOf(s.clients)
  }

  // --- delivery -------------------------------------------------------------------------------

  /** What one copy of a message costs in the inbox of a client. */
  ghost function CopyCost(k: Scale, c: Client): int { 1 }

  ghost function PinCopyCost(k: Scale, c: Client): int {
    if c.role == SECOND_STAGE then 1 + HeldCost(k) else 1
  }

  lemma {:induction false} PinCopies(k: Scale, clients: seq<Client>)
    ensures Total(PinCopyCost, k, clients) == |clients| + Total(HasRole, SECOND_STAGE, clients) * HeldCost(k)
  {
    if clients != [] {
      PinCopies(k, clients[1..]);
    }
  }

  lemma ArrivalCost(k: Scale, c: Client, m: Message, copy: Copy)
    ensures ClientCost(k, WithCopy(c, m, copy)) <= ClientCost(k, c) + 1 +
              (if c.role == SECOND_STAGE then SecondPinCost(HeldCost(k), m) else 0)
  {
    ReceiveAtMost(SecondPinCost, HeldCost(k), c.inbox, m, copy);
  }

  /** What a pin for the second stage costs beyond its copies. */
  function Spreading(k: Scale, m: Message): int {
    if Addressed(m, SECOND_STAGE) && m.kind == PinTransferring then k.spread else 0
  }

  lemma DeliveryCost(k: Scale, clients: seq<Client>, m: Message, copies: seq<Copy>)
    requires k == ScaleOf(clients)
    ensures Total(ClientCost, k, Deliver(clients, m, copies))
            <= Total(ClientCost, k, clients) + |clients| + Spreading(k, m)
  {
    forall c, copy | c in clients
      ensures ClientCost(k, WithCopy(c, m, copy)) <= ClientCost(k, c) + 1 +
                (if c.role == SECOND_STAGE then SecondPinCost(HeldCost(k), m) else 0)
    {
      ArrivalCost(k, c, m, copy);
    }
    if Addressed(m, SECOND_STAGE) && m.kind == PinTransferring {
      DeliverBound(ClientCost, PinCopyCost, k, clients, m, copies);
      PinCopies(k, clients);
    } else {
      DeliverBound(ClientCost, CopyCost, k, clients, m, copies);
      TotalConstant(CopyCost, k, clients, 1);
    }
  }

  lemma ScaleIsNatural(clients: seq<Client>)
    ensures 0 <= ScaleOf(clients).spread
  {
    TotalAtLeast(HasRole, SECOND_STAGE, clients, 0);
  }

  lemma BroadcastCost(k: Scale, s: State, m: Message, transit: Transit)
    requires Scaled(k, s)
    ensures Cost(k, Broadcast(s, m, transit)) <= Cost(k, s) + ServerCost(k, m) + |s.clients| + Spreading(k, m)
    ensures Broadcasts(Broadcast(s, m, transit)) == Broadcasts(s) + FromServer((), m)
  {
    TotalAppend(FromServer, (), s.sent, m);
    ScaleIsNatural(s.clients);
    ReceiveAtMost(ServerCost, k, s.server.inbox, m, transit.server);
    DeliveryCost(k, s.clients, m, transit.clients);
  }

  /** A broadcast of the server costs less than `SendCost`. */
  lemma ServerBroadcastCost(k: Scale, s: State, receiver: Component, kind: Kind, content: Content, transit: Transit)
    requires Scaled(k, s)
    ensures var t := ServerBroadcast(s, receiver, kind, content, transit);
            && Cost(k, t) + 1 <= Cost(k, s) + SendCost(k, receiver, kind)
            && Broadcasts(t) == Broadcasts(s) + 1
  {
    BroadcastCost(k, s, Message(SERVER, receiver, kind, content), transit);
  }

  // --- reactions lower the cost ---------------------------------------------------------------

  /** Costs at least one, and at least one per broadcast of the server. */
  ghost predicate Lowers(k: Scale, s: State, t: State) {
    && Cost(k, t) + 1 <= Cost(k, s)
    && Cost(k, t) + Broadcasts(t) <= Cost(k, s) + Broadcasts(s)
  }

  lemma TimesLess(a: int, k: int)
    ensures k * (a - 1) == k * a - k
    ensures k * (a + 1) == k * a + k
  {
  }

  lemma SendLogLowers(k: Scale, s: State, transit: Transit)
    requires Scaled(k, s) && Enabled(s, SendLog(transit))
    ensures Lowers(k, s, Apply(s, SendLog(transit)))
  {
    ServerBroadcastCost(k, s.(server := s.server.(logInHand := false)), LOGS_COLLECTOR, Log, Bytes, transit);
  }

  lemma SayFarewellLowers(k: Scale, s: State, transit: Transit)
    requires Scaled(k, s) && Enabled(s, SayFarewell(transit))
    ensures Lowers(k, s, Apply(s, SayFarewell(transit)))
  {
    ServerBroadcastCost(k, s.(server := s.server.(farewell := true)), ANY_CLIENT, Shutdown, Bytes, transit);
  }

  lemma TakeLogLowers(k: Scale, s: State)
    requires Enabled(s, TakeLog)
    ensures Lowers(k, s, Apply(s, TakeLog))
  {
    TimesLess(s.server.logs, k.copies + 2);
  }

  lemma ConsumeCost(k: Scale, c: Client)
    requires Provenance.ClientOk(c) && CanConsume(c)
    ensures ClientCost(k, ClientConsume(c)) + 1 <= ClientCost(k, c)
  {
  }

  lemma ConsumeLowers(k: Scale, s: State, i: nat)
    requires Provenance.Disciplined(s) && Enabled(s, Consume(i))
    ensures Lowers(k, s, Apply(s, Consume(i)))
  {
    ConsumeCost(k, s.clients[i]);
    TotalUpdate(ClientCost, k, s.clients, i, ClientConsume(s.clients[i]));
  }

  lemma ResendLowers(k: Scale, s: State, i: nat, transit: Transit)
    requires Scaled(k, s) && Enabled(s, Resend(i, transit))
    ensures Lowers(k, s, Apply(s, Resend(i, transit)))
  {
    var c := s.clients[i];
    var d := c.(held := None);
    var t := s.(clients := s.clients[i := d]);
    TotalUpdate(ClientCost, k, s.clients, i, d);
    TotalUpdate(HasRole, SECOND_STAGE, s.clients, i, d);
    BroadcastCost(k, t, Message(SECOND_STAGE, SERVER, PinTransferring, PinContent(c.held.value)), transit);
  }

  /** A message costs more than everything the poller does about it. */
  lemma PlanCost(k: Scale, m: Message)
    requires 0 <= k.spread
    ensures Total(TaskCost, k, Plan(m)) + 1 <= ServerCost(k, m)
  {
    if m.sender != SERVER {
      if m.kind == PinTransferring {
        PinPlanCost(k, m);
      } else if m.kind == ManagerCommand {
        CommandPlanCost(k, m);
      } else {
        assert [Enqueue][1..] == [];
      }
    }
  }

  lemma PinPlanCost(k: Scale, m: Message)
    requires 0 <= k.spread
    ensures Total(TaskCost, k, PinPlan(m)) + 1 <= 3 * k.copies + 8 + (if m.sender == FIRST_STAGE then k.spread else 0)
  {
    var logs := [Enqueue, Enqueue];
    TotalConstant(TaskCost, k, logs, k.copies + 3);
    if |PinPlan(m)| == 3 {
      var send := PinPlan(m)[2];
      assert PinPlan(m) == logs + [send];
      TotalConcat(TaskCost, k, logs, [send]);
      assert [send][1..] == [];
    }
  }

  lemma CommandPlanCost(k: Scale, m: Message)
    ensures Total(TaskCost, k, CommandPlan(m)) + 1 <= 5 * k.copies + 12
  {
    var plan := CommandPlan(m);
    var n := |plan|;
    TotalConcat(TaskCost, k, plan[..n - 2], [plan[n - 2], plan[n - 1]]);
    assert plan == plan[..n - 2] + [plan[n - 2], plan[n - 1]];
    assert [plan[n - 2], plan[n - 1]][1..] == [plan[n - 1]] && [plan[n - 1]][1..] == [];
    if n == 4 {
      assert plan[..2] == [Enqueue, Enqueue];
      TotalConstant(TaskCost, k, plan[..2], k.copies + 3);
    } else {
      var shutdown := plan[1];
      assert plan[..3] == [Enqueue] + [shutdown] + [Enqueue];
      TotalConcat(TaskCost, k, [Enqueue] + [shutdown], [Enqueue]);
      TotalConcat(TaskCost, k, [Enqueue], [shutdown]);
      assert [Enqueue][1..] == [] && [shutdown][1..] == [];
    }
  }

  lemma PollLowers(k: Scale, s: State)
    requires Scaled(k, s) && Enabled(s, Poll)
    ensures Lowers(k, s, Apply(s, Poll))
  {
    ScaleIsNatural(s.clients);
    PlanCost(k, s.server.inbox[0]);
  }

  lemma PerformLowers(k: Scale, s: State, mutexFree: bool, transit: Transit)
    requires Scaled(k, s) && s.server.tasks != []
    ensures Lowers(k, s, PerformTask(s, mutexFree, transit))
  {
    var task := s.server.tasks[0];
    var t := s.(server := s.server.(tasks := s.server.tasks[1..]));
    assert Cost(k, s) == Cost(k, t) + TaskCost(k, task);
    match task {
      case Enqueue => TimesLess(t.server.logs, k.copies + 2);
      case Send(receiver, kind, content) => ServerBroadcastCost(k, t, receiver, kind, content, transit);
    }
  }

  predicate Spontaneous(a: Action) {
    a.Announce? || a.Produce? || a.Order?
  }

  /** Whatever is done in reaction to something lowers the cost. */
  lemma ReactionsLower(k: Scale, s: State, a: Action)
    requires Scaled(k, s) && Provenance.Disciplined(s) && Enabled(s, a) && !Spontaneous(a)
    ensures Lowers(k, s, Apply(s, a))
  {
    match a {
      case Consume(i) => ConsumeLowers(k, s, i);
      case Resend(i, transit) => ResendLowers(k, s, i, transit);
      case Poll => PollLowers(k, s);
      case Perform(mutexFree, transit) => PerformLowers(k, s, mutexFree, transit);
      case TakeLog => TakeLogLowers(k, s);
      case SendLog(transit) => SendLogLowers(k, s, transit);
      case SayFarewell(transit) => SayFarewellLowers(k, s, transit);
      case _ =>
    }
  }

  /** What a send a client makes of its own accord can set off. */
  function Charge(k: Scale, a: Action): int {
    match a
    case Announce(_, _) => 2 * k.copies + 3
    case Produce(_, _, _) => 4 * k.copies + 7 + k.spread
    case Order(_, _, _) => 6 * k.copies + 11
    case _ => 0
  }

  lemma SpontaneousCharge(k: Scale, s: State, a: Action)
    requires Scaled(k, s) && Provenance.Disciplined(s) && Enabled(s, a) && Spontaneous(a)
    ensures Cost(k, Apply(s, a)) <= Cost(k, s) + Charge(k, a)
    ensures Broadcasts(Apply(s, a)) == Broadcasts(s)
  {
    match a {
      case Announce(i, transit) =>
        assert Provenance.ClientOk(s.clients[i]);
        BroadcastCost(k, s, Message(s.clients[i].role, SERVER, NewClient, Bytes), transit);
      case Produce(i, pin, transit) =>
        BroadcastCost(k, s, Message(FIRST_STAGE, SERVER, PinTransferring, PinContent(pin)), transit);
      case Order(i, target, transit) =>
        BroadcastCost(k, s, Message(MANAGER, SERVER, ManagerCommand, CommandContent(target)), transit);
    }
  }

  // --- every run ------------------------------------------------------------------------------

  /** The number of reactions in a run. */
  function Reactions(acts: seq<Action>): nat {
    if acts == [] then 0 else (if Spontaneous(acts[0]) then 0 else 1) + Reactions(acts[1..])
  }

  ghost function Charges(k: Scale, acts: seq<Action>): int {
    Total(Charge, k, acts)
  }

  /** The roles of the clients, in order. */
  ghost function Roles(clients: seq<Client>): seq<Component> {
    seq(|clients|, i requires 0 <= i < |clients| => clients[i].role)
  }

  lemma StepKeepsScale(k: Scale, s: State, a: Action)
    requires Scaled(k, s) && Enabled(s, a)
    ensures Scaled(k, Apply(s, a))
  {
    StepKeepsRoles(s, a, Roles(s.clients));
    RolesAreCounted(s.clients, Roles(s.clients), SECOND_STAGE);
    RolesAreCounted(Apply(s, a).clients, Roles(s.clients), SECOND_STAGE);
  }

  ghost predicate Accounted(k: Scale, s: State, t: State, reactions: int, charges: int) {
    && Cost(k, t) + reactions <= Cost(k, s) + charges
    && Cost(k, t) + Broadcasts(t) <= Cost(k, s) + Broadcasts(s) + charges
  }

  /** What one step costs: a reaction pays for itself and its broadcasts. */
  lemma StepCost(k: Scale, s: State, a: Action)
    requires Scaled(k, s) && Provenance.Disciplined(s) && Enabled(s, a)
    ensures var t := Apply(s, a);
            Accounted(k, s, t, Reactions([a]), Charge(k, a))
  {
    assert Reactions([a]) == if Spontaneous(a) then 0 else 1;
    if Spontaneous(a) {
      SpontaneousCharge(k, s, a);
    } else {
      ReactionsLower(k, s, a);
    }
  }

  /** Over a run, the cost paid for reactions and broadcasts never exceeds what was there at the
      start plus what spontaneous sends put in. */
  lemma {:induction false} RunCost(k: Scale, s: State, acts: seq<Action>)
    requires Scaled(k, s) && Provenance.Disciplined(s) && Executable(s, acts)
    ensures Accounted(k, s, After(s, acts), Reactions(acts), Charges(k, acts))
    decreases |acts|
  {
    if acts != [] {
      StepKeepsScale(k, s, acts[0]);
      Provenance.StepDisciplined(s, acts[0]);
      StepCost(k, s, acts[0]);
      RunCost(k, Apply(s, acts[0]), acts[1..]);
      Chained(k, s, Apply(s, acts[0]), After(s, acts), acts);
    }
  }

  lemma Chained(k: Scale, s: State, t: State, u: State, acts: seq<Action>)
    requires acts != []
    requires Accounted(k, s, t, Reactions([acts[0]]), Charge(k, acts[0]))
    requires Accounted(k, t, u, Reactions(acts[1..]), Charges(k, acts[1..]))
    ensures Accounted(k, s, u, Reactions(acts), Charges(k, acts))
  {
    assert [acts[0]][1..] == [];
  }

  lemma LogCostIsNatural(k: Scale, server: Server)
    ensures 0 <= LogCost(k, server)
  {
    assert 0 <= (k.copies + 2) * server.logs;
  }

  lemma ClientCostIsNatural(k: Scale, c: Client)
    ensures 0 <= ClientCost(k, c)
  {
    TotalAtLeast(SecondPinCost, HeldCost(k), c.inbox, 0);
  }

  lemma CostIsNatural(k: Scale, s: State)
    requires 0 <= k.spread
    ensures 0 <= Cost(k, s)
  {
    TotalAtLeast(ServerCost, k, s.server.inbox, 0);
    TotalAtLeast(TaskCost, k, s.server.tasks, 0);
    LogCostIsNatural(k, s.server);
    forall c | c in s.clients
      ensures 0 <= ClientCost(k, c)
    {
      ClientCostIsNatural(k, c);
    }
    TotalAtLeast(ClientCost, k, s.clients, 0);
  }

  lemma InitialCost(roles: seq<Component>, logCapacity: nat)
    ensures var k := ScaleOf(Initial(roles, logCapacity).clients); Cost(k, Initial(roles, logCapacity)) == |roles| + 4
  {
    var s := Initial(roles, logCapacity);
    var k := ScaleOf(s.clients);
    TotalConstant(ClientCost, k, s.clients, 0);
    assert (k.copies + 2) * 0 == 0;
  }

  /**
   No broadcast storm: over every run, the server's broadcasts, and all the steps taken in reaction
   to a message, are bounded by the sends clients make of their own accord.
   */
  lemma NoBroadcastStorm(roles: seq<Component>, logCapacity: nat, acts: seq<Action>)
    requires Provenance.AllClients(roles) && Executable(Initial(roles, logCapacity), acts)
    ensures var k := ScaleOf(Initial(roles, logCapacity).clients);
            && Reactions(acts) <= |roles| + 4 + Charges(k, acts)
            && Broadcasts(After(Initial(roles, logCapacity), acts)) <= |roles| + 4 + Charges(k, acts)
  {
    var s := Initial(roles, logCapacity);
    var k := ScaleOf(s.clients);
    RunCost(k, s, acts);
    InitialCost(roles, logCapacity);
    ScaleIsNatural(s.clients);
    CostIsNatural(k, After(s, acts));
  }

  /** Without further sends of the clients' own, everything comes to rest: at most as many steps
      follow as the cost of the present state. */
  lemma QuietClientsComeToRest(s: State, acts: seq<Action>)
    requires Provenance.Disciplined(s) && Executable(s, acts)
    requires forall a | a in acts :: !Spontaneous(a)
    ensures |acts| <= Cost(ScaleOf(s.clients), s)
  {
    var k := ScaleOf(s.clients);
    RunCost(k, s, acts);
    ScaleIsNatural(s.clients);
    CostIsNatural(k, After(s, acts));
    TotalConstant(Charge, k, acts, 0);
    AllReactions(acts);
  }

  lemma {:induction false} AllReactions(acts: seq<Action>)
    requires forall a | a in acts :: !Spontaneous(a)
    ensures Reactions(acts) == |acts|
  {
    if acts != [] {
      AllReactions(acts[1..]);
    }
  }
}
