/**
 What else the server of os_ihw4/mark-10 does for its clients, over every run: it answers orders, stops
 those it is told to stop, and sends its logs.
 */
module Service {
  import opened Delivery
  import opened Messages
  import opened Network
  import opened Prelude
  import opened Provenance
  import opened Sums

  // --- orders ---------------------------------------------------------------------------------

  /** Every order that reaches the server has one result, which says whether there is such a component,
      and the clients it names are sent one shutdown message for each such order. */
  lemma OrdersAreCarriedOut(roles: seq<Component>, logCapacity: nat, acts: seq<Action>, result: CommandResult, role: Component)
    requires IsRun(roles, logCapacity, acts) && IsClient(role)
    requires var server := End(roles, logCapacity, acts).server;
             server.inbox == [] && server.tasks == [] && server.lost == []
    ensures var t := End(roles, logCapacity, acts);
            && Total(Is, Answer(result), t.sent) == Total(OrderDeserving, result, acts)
            && Total(Is, Stop(role), t.sent) == Total(OrderTo, role, acts)
  {
    ReachedServerReacts(roles, logCapacity, acts, Answer(result));
    ReachedServerReacts(roles, logCapacity, acts, Stop(role));
    SameOrders(result, role, acts);
  }

  /** 1 for an order that succeeds if `result` is Success, or one that fails if it is InvalidArgs. */
  ghost function OrderDeserving(result: CommandResult, a: Action): int {
    if a.Order? && (if a.target in {SERVER, FIRST_STAGE, SECOND_STAGE, THIRD_STAGE, LOGS_COLLECTOR, MANAGER}
                    then result == Success else result == InvalidArgs)
    then 1 else 0
  }

  /** 1 for an order to stop the clients with a role. */
  ghost function OrderTo(role: Component, a: Action): int {
    if a.Order? && a.target == role then 1 else 0
  }

  lemma {:induction false} SameOrders(result: CommandResult, role: Component, acts: seq<Action>)
    requires IsClient(role)
    ensures Total(OrderDeserving, result, acts) == Total(Begins, Answer(result), acts)
    ensures Total(OrderTo, role, acts) == Total(Begins, Stop(role), acts)
  {
    if acts != [] {
      SameOrders(result, role, acts[1..]);
    }
  }

  /** The server never reports an internal error or a missing connection. */
  lemma OnlyTwoResults(roles: seq<Component>, logCapacity: nat, acts: seq<Action>, result: CommandResult)
    requires IsRun(roles, logCapacity, acts) && (result == InternalError || result == NoConnection)
    ensures Total(Is, Answer(result), End(roles, logCapacity, acts).sent) == 0
  {
    var t := End(roles, logCapacity, acts);
    NoReactionUncalled(roles, logCapacity, acts, Answer(result));
    TotalConstant(Calls, Answer(result), t.sent, 0);
  }

  // --- stopping -------------------------------------------------------------------------------

  /** 1 if `m` tells clients with this role to stop. */
  ghost function Told(role: Component, m: Message): int {
    if Addressed(m, role) && m.kind == Shutdown then 1 else 0
  }

  ghost function IsFarewell(k: (), m: Message): int {
    if m.sender == SERVER && m.kind == Shutdown && m.receiver == ANY_CLIENT then 1 else 0
  }

  /** A client has stopped if it was told to, once, and runs if it was not. */
  ghost predicate StopsWhenTold(c: Client) {
    Total(Told, c.role, c.taken) == if c.running then 0 else 1
  }

  ghost predicate StopInv(s: State) {
    && (forall i {:trigger s.clients[i]} | 0 <= i < |s.clients| :: StopsWhenTold(s.clients[i]))
    && Total(IsFarewell, (), s.sent) == if s.server.farewell then 1 else 0
  }

  lemma BroadcastStopInv(s: State, t: State, m: Message, transit: Transit)
    requires StopInv(s) && t.clients == s.clients && t.sent == s.sent
    requires (if t.server.farewell then 1 else 0) == (if s.server.farewell then 1 else 0) + IsFarewell((), m)
    ensures StopInv(Broadcast(t, m, transit))
  {
    var u := Broadcast(t, m, transit);
    TotalAppend(IsFarewell, (), s.sent, m);
    forall i | 0 <= i < |u.clients|
      ensures StopsWhenTold(u.clients[i])
    {
      DeliverAt(s.clients, m, transit.clients, i);
      assert StopsWhenTold(s.clients[i]);
    }
  }

  lemma ConsumeStopInv(s: State, i: nat)
    requires StopInv(s) && Enabled(s, Consume(i))
    ensures StopInv(Apply(s, Consume(i)))
  {
    var c := s.clients[i];
    assert StopsWhenTold(c);
    TotalAppend(Told, c.role, c.taken, c.inbox[0]);
  }

  lemma ResendStopInv(s: State, i: nat, transit: Transit)
    requires Disciplined(s) && StopInv(s) && Enabled(s, Resend(i, transit))
    ensures StopInv(Apply(s, Resend(i, transit)))
  {
    var c := s.clients[i];
    var t := s.(clients := s.clients[i := c.(held := None)]);
    assert StopsWhenTold(c);
    BroadcastStopInv(t, t, Message(c.role, SERVER, PinTransferring, PinContent(c.held.value)), transit);
  }

  lemma PerformStopInv(s: State, mutexFree: bool, transit: Transit)
    requires Disciplined(s) && PlansNoFarewell(s) && StopInv(s) && s.server.tasks != []
    ensures StopInv(PerformTask(s, mutexFree, transit))
  {
    var task := s.server.tasks[0];
    if task.Send? {
      assert NoFarewell(task);
      BroadcastStopInv(s, s.(server := s.server.(tasks := s.server.tasks[1..])),
                       Message(SERVER, task.receiver, task.kind, task.content), transit);
    }
  }

  ghost predicate NoFarewell(task: Task) {
    task.Send? && task.kind == Shutdown ==> IsClient(task.receiver)
  }

  /** The poller never stops all clients at once. */
  ghost predicate PlansNoFarewell(s: State) {
    forall task | task in s.server.tasks :: NoFarewell(task)
  }

  lemma PlanHasNoFarewell(m: Message)
    ensures forall task | task in Plan(m) :: NoFarewell(task)
  {
  }

  lemma StepPlansNoFarewell(s: State, a: Action)
    requires PlansNoFarewell(s) && Enabled(s, a)
    ensures PlansNoFarewell(Apply(s, a))
  {
    if a.Poll? {
      PlanHasNoFarewell(s.server.inbox[0]);
    } else {
      assert forall task | task in Apply(s, a).server.tasks :: task in s.server.tasks;
    }
  }

  lemma StepStopInv(s: State, a: Action)
    requires Disciplined(s) && PlansNoFarewell(s) && StopInv(s) && Enabled(s, a)
    ensures StopInv(Apply(s, a))
  {
    match a {
      case Announce(i, transit) =>
        assert ClientOk(s.clients[i]);
        BroadcastStopInv(s, s, Message(s.clients[i].role, SERVER, NewClient, Bytes), transit);
      case Produce(i, pin, transit) =>
        BroadcastStopInv(s, s, Message(FIRST_STAGE, SERVER, PinTransferring, PinContent(pin)), transit);
      case Order(i, target, transit) =>
        BroadcastStopInv(s, s, Message(MANAGER, SERVER, ManagerCommand, CommandContent(target)), transit);
      case Consume(i) => ConsumeStopInv(s, i);
      case Resend(i, transit) => ResendStopInv(s, i, transit);
      case Perform(mutexFree, transit) => PerformStopInv(s, mutexFree, transit);
      case SendLog(transit) =>
        BroadcastStopInv(s, s.(server := s.server.(logInHand := false)), Message(SERVER, LOGS_COLLECTOR, Log, Bytes), transit);
      case SayFarewell(transit) =>
        BroadcastStopInv(s, s.(server := s.server.(farewell := true)), Message(SERVER, ANY_CLIENT, Shutdown, Bytes), transit);
      case _ =>
    }
  }

  lemma {:induction false} RunStopInv(s: State, acts: seq<Action>)
    requires Disciplined(s) && PlansNoFarewell(s) && StopInv(s) && Executable(s, acts)
    ensures StopInv(After(s, acts))
    decreases |acts|
  {
    if acts != [] {
      StepDisciplined(s, acts[0]);
      StepPlansNoFarewell(s, acts[0]);
      StepStopInv(s, acts[0]);
      RunStopInv(Apply(s, acts[0]), acts[1..]);
    }
  }

  /** A client with this role is told to stop by a message that names its role, or by the farewell. */
  lemma {:induction false} ToldByNameOrFarewell(role: Component, messages: seq<Message>)
    requires IsClient(role) && forall m | m in messages :: WellAddressed(m)
    ensures Total(Told, role, messages) == Total(Is, Stop(role), messages) + Total(IsFarewell, (), messages)
  {
    if messages != [] {
      assert WellAddressed(messages[0]);
      if messages[0].sender == SERVER && messages[0].kind == Shutdown {
        ShutdownReaches(messages[0], role);
      }
      ToldByNameOrFarewell(role, messages[1..]);
    }
  }

  /** What client `i` was told: it is in its inbox, or lost, or the client has stopped because of it. */
  lemma TellingIsCounted(roles: seq<Component>, logCapacity: nat, acts: seq<Action>, i: nat)
    requires IsRun(roles, logCapacity, acts) && i < |End(roles, logCapacity, acts).clients|
    ensures var t := End(roles, logCapacity, acts);
            var c := t.clients[i];
            Total(Told, c.role, c.inbox) + Total(Told, c.role, c.lost) + (if c.running then 0 else 1)
            == Total(Is, Stop(c.role), t.sent) + (if t.server.farewell then 1 else 0)
  {
    var t := End(roles, logCapacity, acts);
    var c := t.clients[i];
    RunStopInv(Initial(roles, logCapacity), acts);
    AlwaysDisciplined(roles, logCapacity, acts);
    EveryDatagramIsAccountedFor(roles, logCapacity, acts, Told, c.role);
    assert ClientBalanced(Told, c.role, t.sent, c) && StopsWhenTold(c) && ClientOk(c);
    ToldByNameOrFarewell(c.role, t.sent);
  }

  /** A client stops only if a manager ordered it for its role, or the server has said farewell. */
  lemma ClientsStopOnlyWhenTold(roles: seq<Component>, logCapacity: nat, acts: seq<Action>, i: nat)
    requires IsRun(roles, logCapacity, acts) && i < |End(roles, logCapacity, acts).clients|
    requires !End(roles, logCapacity, acts).clients[i].running
    ensures var t := End(roles, logCapacity, acts);
            t.server.farewell || exists a :: a in acts && a.Order? && a.target == t.clients[i].role
  {
    var t := End(roles, logCapacity, acts);
    var c := t.clients[i];
    TellingIsCounted(roles, logCapacity, acts, i);
    TotalAtLeast(Told, c.role, c.inbox, 0);
    TotalAtLeast(Told, c.role, c.lost, 0);
    NoReactionUncalled(roles, logCapacity, acts, Stop(c.role));
    CallsAreBegun(roles, logCapacity, acts, Stop(c.role));
    if !t.server.farewell {
      var n := TotalPositive(Begins, Stop(c.role), acts);
      assert acts[n] in acts;
    }
  }

  /** When nothing is lost and nothing waits, a client is still running exactly when nobody has ordered
      clients of its role to stop and the server has not said farewell. */
  lemma ClientsStopWhenTold(roles: seq<Component>, logCapacity: nat, acts: seq<Action>, i: nat)
    requires IsRun(roles, logCapacity, acts) && i < |End(roles, logCapacity, acts).clients|
    requires var t := End(roles, logCapacity, acts);
             && t.server.inbox == [] && t.server.tasks == [] && Lossless(t)
             && (t.clients[i].running ==> t.clients[i].inbox == [])
    ensures var t := End(roles, logCapacity, acts);
            t.clients[i].running <==> !t.server.farewell && forall a | a in acts && a.Order? :: a.target != t.clients[i].role
  {
    var t := End(roles, logCapacity, acts);
    var c := t.clients[i];
    if c.running {
      AlwaysDisciplined(roles, logCapacity, acts);
      assert ClientOk(c) && c in t.clients;
      TellingIsCounted(roles, logCapacity, acts, i);
      OrdersAreCarriedOut(roles, logCapacity, acts, Success, c.role);
      TotalAtLeast(OrderTo, c.role, acts, 0);
      forall a | a in acts && a.Order?
        ensures a.target != c.role
      {
        var n :| 0 <= n < |acts| && acts[n] == a;
        TotalMember(OrderTo, c.role, acts, n);
      }
    } else {
      ClientsStopOnlyWhenTold(roles, logCapacity, acts, i);
    }
  }

  // --- logs -----------------------------------------------------------------------------------

  /** How many logs the server writes about a message: one about a new client, two about a pin, three
      about an order. */
  ghost function LogsAbout(k: (), m: Message): int {
    if m.sender == SERVER then 0
    else if m.kind == PinTransferring then 2
    else if m.kind == ManagerCommand then 3
    else 1
  }

  ghost function Writes(k: (), task: Task): int {
    if task.Enqueue? then 1 else 0
  }

  ghost function GotIn(k: (), ok: bool): int {
    if ok then 1 else 0
  }

  ghost function IsLog(k: (), m: Message): int {
    if m.sender == SERVER && m.kind == Log then 1 else 0
  }

  /** Every message is logged. A log that got into the queue is in it, in hand, or sent; nothing else
      is sent as a log. */
  ghost predicate LogInv(s: State) {
    && |s.server.logged| + Total(Writes, (), s.server.tasks) == Total(LogsAbout, (), s.server.taken)
    && Total(GotIn, (), s.server.logged)
       == s.server.logs + (if s.server.logInHand then 1 else 0) + Total(IsLog, (), s.sent)
    && s.server.logs <= s.server.logCapacity
    && forall task | task in s.server.tasks :: task.Send? ==> task.kind != Log
  }

  lemma PlanLogs(m: Message)
    requires WellAddressed(m)
    ensures Total(Writes, (), Plan(m)) == LogsAbout((), m)
    ensures forall task | task in Plan(m) :: task.Send? ==> task.kind != Log
  {
    if m.sender != SERVER && m.kind == PinTransferring {
      var plan := PinPlan(m);
      TotalAppend(Writes, (), [Enqueue, Enqueue], plan[2]);
      TotalConstant(Writes, (), [Enqueue, Enqueue], 1);
    } else if m.sender != SERVER && m.kind == ManagerCommand {
      var plan := CommandPlan(m);
      var n := |plan|;
      var start := if IsClient(m.content.target) then [Enqueue, plan[1]] else [Enqueue];
      assert plan == start + [Enqueue] + [plan[n - 2]] + [Enqueue];
      TotalAppend(Writes, (), start + [Enqueue] + [plan[n - 2]], Enqueue);
      TotalAppend(Writes, (), start + [Enqueue], plan[n - 2]);
      TotalAppend(Writes, (), start, Enqueue);
      if |start| == 2 {
        TotalAppend(Writes, (), [Enqueue], plan[1]);
      }
      assert [Enqueue][1..] == [];
    } else if m.sender != SERVER {
      assert [Enqueue][1..] == [];
    }
  }

  lemma OtherLogInv(s: State, m: Message, transit: Transit)
    requires LogInv(s) && IsLog((), m) == 0
    ensures LogInv(Broadcast(s, m, transit))
  {
    TotalAppend(IsLog, (), s.sent, m);
  }

  lemma PollLogInv(s: State)
    requires Disciplined(s) && LogInv(s) && Enabled(s, Poll)
    ensures LogInv(Apply(s, Poll))
  {
    var m := s.server.inbox[0];
    PlanLogs(m);
    TotalAppend(LogsAbout, (), s.server.taken, m);
  }

  lemma PerformLogInv(s: State, mutexFree: bool, transit: Transit)
    requires LogInv(s) && s.server.tasks != []
    ensures LogInv(PerformTask(s, mutexFree, transit))
  {
    var task := s.server.tasks[0];
    assert task in s.server.tasks;
    if task.Send? {
      TotalAppend(IsLog, (), s.sent, Message(SERVER, task.receiver, task.kind, task.content));
    } else {
      TotalAppend(GotIn, (), s.server.logged, mutexFree && s.server.logs < s.server.logCapacity);
    }
  }

  lemma LoggerSendLogInv(s: State, transit: Transit)
    requires LogInv(s) && Enabled(s, SendLog(transit))
    ensures LogInv(Apply(s, SendLog(transit)))
  {
    TotalAppend(IsLog, (), s.sent, Message(SERVER, LOGS_COLLECTOR, Log, Bytes));
  }

  lemma ClientSendLogInv(s: State, a: Action)
    requires Disciplined(s) && LogInv(s) && Enabled(s, a) && (a.Announce? || a.Produce? || a.Order? || a.Resend?)
    ensures LogInv(Apply(s, a))
  {
    match a {
      case Announce(i, transit) => OtherLogInv(s, Message(s.clients[i].role, SERVER, NewClient, Bytes), transit);
      case Produce(i, pin, transit) =>
        OtherLogInv(s, Message(s.clients[i].role, SERVER, PinTransferring, PinContent(pin)), transit);
      case Order(i, target, transit) =>
        OtherLogInv(s, Message(s.clients[i].role, SERVER, ManagerCommand, CommandContent(target)), transit);
      case Resend(i, transit) =>
        var c := s.clients[i];
        OtherLogInv(s.(clients := s.clients[i := c.(held := None)]),
                    Message(c.role, SERVER, PinTransferring, PinContent(c.held.value)), transit);
    }
  }

  lemma StepLogInv(s: State, a: Action)
    requires Disciplined(s) && LogInv(s) && Enabled(s, a)
    ensures LogInv(Apply(s, a))
  {
    match a {
      case Poll => PollLogInv(s);
      case Perform(mutexFree, transit) => PerformLogInv(s, mutexFree, transit);
      case SendLog(transit) => LoggerSendLogInv(s, transit);
      case SayFarewell(transit) =>
        OtherLogInv(s.(server := s.server.(farewell := true)), Message(SERVER, ANY_CLIENT, Shutdown, Bytes), transit);
      case Consume(i) =>
      case TakeLog =>
      case StopPolling =>
      case StopLogging =>
      case _ => ClientSendLogInv(s, a);
    }
  }

  lemma {:induction false} RunLogInv(s: State, acts: seq<Action>)
    requires Disciplined(s) && LogInv(s) && Executable(s, acts)
    ensures LogInv(After(s, acts))
    decreases |acts|
  {
    if acts != [] {
      StepDisciplined(s, acts[0]);
      StepLogInv(s, acts[0]);
      RunLogInv(Apply(s, acts[0]), acts[1..]);
    }
  }

  /** Over every run, the server tries to log each message as often as its kind asks for, and each log
      that gets into the queue is sent exactly once, or still waits. */
  lemma EveryLogIsSentOnce(roles: seq<Component>, logCapacity: nat, acts: seq<Action>)
    requires IsRun(roles, logCapacity, acts)
    ensures LogInv(End(roles, logCapacity, acts))
  {
    RunLogInv(Initial(roles, logCapacity), acts);
  }

  /** Only an attempt to queue a log adds to the record. */
  lemma StepLogs(s: State, a: Action)
    requires Enabled(s, a)
    ensures Apply(s, a).server.logCapacity == s.server.logCapacity
    ensures Apply(s, a).server.logged == s.server.logged +
              if a.Perform? && s.server.tasks[0].Enqueue?
              then [a.mutexFree && s.server.logs < s.server.logCapacity] else []
  {
    assert s.server.logged + [] == s.server.logged;
  }

  lemma {:induction false} AttemptsGrow(s: State, acts: seq<Action>)
    requires Executable(s, acts)
    ensures |s.server.logged| <= |After(s, acts).server.logged|
    decreases |acts|
  {
    if acts != [] {
      StepLogs(s, acts[0]);
      AttemptsGrow(Apply(s, acts[0]), acts[1..]);
    }
  }

  lemma QueueIsShorterThanRecord(s: State)
    requires LogInv(s)
    ensures s.server.logs <= |s.server.logged|
  {
    TotalAtLeast(IsLog, (), s.sent, 0);
    TotalAtMost(GotIn, (), s.server.logged, 1);
  }

  ghost predicate AllIn(s: State) {
    forall ok | ok in s.server.logged :: ok
  }

  /** The mutex of the log queue was never found taken. */
  ghost predicate MutexAlwaysFree(acts: seq<Action>) {
    forall a | a in acts && a.Perform? :: a.mutexFree
  }

  lemma StepKeepsAllIn(s: State, a: Action)
    requires LogInv(s) && AllIn(s) && Enabled(s, a) && (a.Perform? ==> a.mutexFree)
    requires |Apply(s, a).server.logged| <= s.server.logCapacity
    ensures AllIn(Apply(s, a)) && Apply(s, a).server.logCapacity == s.server.logCapacity
  {
    StepLogs(s, a);
    QueueIsShorterThanRecord(s);
  }

  lemma {:induction false} RunKeepsAllIn(s: State, acts: seq<Action>)
    requires Disciplined(s) && LogInv(s) && AllIn(s) && Executable(s, acts) && MutexAlwaysFree(acts)
    requires |After(s, acts).server.logged| <= s.server.logCapacity
    ensures AllIn(After(s, acts))
    decreases |acts|
  {
    if acts != [] {
      var t := Apply(s, acts[0]);
      StepDisciplined(s, acts[0]);
      StepLogInv(s, acts[0]);
      AttemptsGrow(t, acts[1..]);
      assert acts[0] in acts;
      StepKeepsAllIn(s, acts[0]);
      RunKeepsAllIn(t, acts[1..]);
    }
  }

  /** No log is turned away unless the mutex is taken or the queue is too small for all of them. */
  lemma LogsAreTakenIn(roles: seq<Component>, logCapacity: nat, acts: seq<Action>)
    requires IsRun(roles, logCapacity, acts) && MutexAlwaysFree(acts)
    requires |End(roles, logCapacity, acts).server.logged| <= logCapacity
    ensures AllIn(End(roles, logCapacity, acts))
  {
    RunKeepsAllIn(Initial(roles, logCapacity), acts);
  }

  // --- announcements --------------------------------------------------------------------------

  ghost function IsAnnouncement(k: (), m: Message): int {
    if m.receiver == SERVER && m.kind == NewClient then 1 else 0
  }

  ghost function Announces(k: (), a: Action): int {
    if a.Announce? then 1 else 0
  }

  lemma StepAnnounces(s: State, a: Action)
    requires Disciplined(s) && Enabled(s, a)
    ensures Total(IsAnnouncement, (), Apply(s, a).sent) == Total(IsAnnouncement, (), s.sent) + Announces((), a)
  {
    match a {
      case Announce(i, _) => TotalAppend(IsAnnouncement, (), s.sent, Message(s.clients[i].role, SERVER, NewClient, Bytes));
      case Produce(_, pin, _) =>
        TotalAppend(IsAnnouncement, (), s.sent, Message(FIRST_STAGE, SERVER, PinTransferring, PinContent(pin)));
      case Order(_, target, _) =>
        TotalAppend(IsAnnouncement, (), s.sent, Message(MANAGER, SERVER, ManagerCommand, CommandContent(target)));
      case Resend(i, _) =>
        TotalAppend(IsAnnouncement, (), s.sent,
                    Message(SECOND_STAGE, SERVER, PinTransferring, PinContent(s.clients[i].held.value)));
      case Perform(_, _) =>
        var task := s.server.tasks[0];
        assert TaskOk(task);
        if task.Send? {
          TotalAppend(IsAnnouncement, (), s.sent, Message(SERVER, task.receiver, task.kind, task.content));
        }
      case SendLog(_) => TotalAppend(IsAnnouncement, (), s.sent, Message(SERVER, LOGS_COLLECTOR, Log, Bytes));
      case SayFarewell(_) => TotalAppend(IsAnnouncement, (), s.sent, Message(SERVER, ANY_CLIENT, Shutdown, Bytes));
      case _ =>
    }
  }

  lemma {:induction false} RunAnnounces(s: State, acts: seq<Action>)
    requires Disciplined(s) && Executable(s, acts)
    ensures Total(IsAnnouncement, (), After(s, acts).sent) == Total(IsAnnouncement, (), s.sent) + Total(Announces, (), acts)
    decreases |acts|
  {
    if acts != [] {
      StepDisciplined(s, acts[0]);
      StepAnnounces(s, acts[0]);
      RunAnnounces(Apply(s, acts[0]), acts[1..]);
    }
  }

  /** Each announcement reaches the server once, unless it is lost or still waits. */
  lemma AnnouncementsArrive(roles: seq<Component>, logCapacity: nat, acts: seq<Action>)
    requires IsRun(roles, logCapacity, acts)
    ensures var server := End(roles, logCapacity, acts).server;
            Total(Announces, (), acts)
            == Total(IsAnnouncement, (), server.inbox) + Total(IsAnnouncement, (), server.taken)
               + Total(IsAnnouncement, (), server.lost)
  {
    RunAnnounces(Initial(roles, logCapacity), acts);
    EveryDatagramIsAccountedFor(roles, logCapacity, acts, IsAnnouncement, ());
  }
}
