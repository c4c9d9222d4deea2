/**
 The broadcast protocol of os_ihw4/mark-10 as a whole: every datagram goes to one shared broadcast
 address, so a copy reaches every inbox, the sender's and the server's own included. The network may
 lose any copy and may overtake within an inbox; it does not duplicate datagrams.

 One step is one datagram received, one datagram sent, or one operation on the log queue. The server
 has two threads: the poller receives a message and then carries out its operations one by one, and
 the logger takes logs from the queue and sends them.
 */
module Network {
  import opened Messages
  import opened Prelude
  import PinCheck

  /** A client and its inbox. A second stage worker holds the pin it is sharpening. `taken` and `lost`
      record the datagrams it has received, and those whose copy never reached it. */
  datatype Client = Client(
    role: Component,
    inbox: seq<Message>,
    held: Option<Pin>,
    running: bool,
    taken: seq<Message>,
    lost: seq<Message>)

  /** What the poller does about a message: try to queue a log, or send a datagram. */
  datatype Task = Enqueue | Send(receiver: Component, kind: Kind, content: Content)

  /** `tasks`: what the poller still has to do about the message it received. `logInHand`: the logger
      has taken a log and not yet sent it. `polling` and `logging`: the threads have not ended.
      `logged` records for each attempt to queue a log whether it got into the queue. */
  datatype Server = Server(
    inbox: seq<Message>,
    tasks: seq<Task>,
    polling: bool,
    logging: bool,
    logInHand: bool,
    logs: nat,
    logCapacity: nat,
    farewell: bool,
    taken: seq<Message>,
    lost: seq<Message>,
    logged: seq<bool>)

  /** `sent`: the datagrams sent so far by anybody, in order. */
  datatype State = State(server: Server, clients: seq<Client>, sent: seq<Message>)

  /** What becomes of one copy of a datagram: lost, or put into the inbox behind `place` messages. */
  datatype Copy = Lost | Arrives(place: nat)

  /** The copies of a datagram: the server's, and those of the clients in order. */
  datatype Transit = Transit(server: Copy, clients: seq<Copy>)

  datatype Action =
    | Announce(i: nat, transit: Transit)
    | Produce(i: nat, pin: Pin, transit: Transit)
    | Order(i: nat, target: Component, transit: Transit)
    | Consume(i: nat)
    | Resend(i: nat, transit: Transit)
    | Poll
    | Perform(mutexFree: bool, transit: Transit)
    | TakeLog
    | SendLog(transit: Transit)
    | StopPolling
    | StopLogging
    | SayFarewell(transit: Transit)

  // --- delivery -------------------------------------------------------------------------------

  function Receive(inbox: seq<Message>, m: Message, copy: Copy): seq<Message> {
    match copy
    case Lost => inbox
    case Arrives(place) => inbox[..Min(place, |inbox|)] + [m] + inbox[Min(place, |inbox|)..]
  }

  function LostCopy(m: Message, copy: Copy): seq<Message> {
    if copy.Lost? then [m] else []
  }

  function WithCopy(c: Client, m: Message, copy: Copy): Client {
    c.(inbox := Receive(c.inbox, m, copy), lost := c.lost + LostCopy(m, copy))
  }

  function ServerCopy(server: Server, m: Message, copy: Copy): Server {
    server.(inbox := Receive(server.inbox, m, copy), lost := server.lost + LostCopy(m, copy))
  }

  /** One copy for each client; a copy that is not mentioned arrives last. */
  function Deliver(clients: seq<Client>, m: Message, copies: seq<Copy>): (result: seq<Client>)
    ensures |result| == |clients|
  {
    if clients == [] then []
    else
      [WithCopy(clients[0], m, if copies == [] then Arrives(|clients[0].inbox|) else copies[0])]
      + Deliver(clients[1..], m, if copies == [] then [] else copies[1..])
  }

  /** `sendto` the broadcast address. */
  function Broadcast(s: State, m: Message, transit: Transit): State {
    State(ServerCopy(s.server, m, transit.server), Deliver(s.clients, m, transit.clients), s.sent + [m])
  }

  // --- the server -----------------------------------------------------------------------------

  /** A broadcast by the server. */
  function ServerBroadcast(s: State, receiver: Component, kind: Kind, content: Content, transit: Transit): State {
    Broadcast(s, Message(SERVER, receiver, kind, content), transit)
  }

  /** `server_handle_pin_transferring`: two logs and, if it comes from a worker, the pin. */
  function PinPlan(m: Message): seq<Task> {
    if m.receiver != SERVER then []
    else if m.sender == FIRST_STAGE then [Enqueue, Enqueue, Send(SECOND_STAGE, PinTransferring, PinContent(PinOf(m)))]
    else if m.sender == SECOND_STAGE then [Enqueue, Enqueue, Send(THIRD_STAGE, PinTransferring, PinContent(PinOf(m)))]
    else [Enqueue, Enqueue]
  }

  /** `server_handler_manager_command` and `execute_command`. An order to stop the server itself
      only sets an alarm; an invalid target is reported. */
  function CommandPlan(m: Message): seq<Task> {
    var target := if m.content.CommandContent? then m.content.target else 0;
    var result := if IsClient(target) || target == SERVER then Success else InvalidArgs;
    [Enqueue] + (if IsClient(target) then [Send(target, Shutdown, Bytes)] else [])
    + [Enqueue, Send(MANAGER, ManagerCommandResult, ResultContent(result)), Enqueue]
  }

  /** `nonblocking_poll`: what is to be done about a message; nothing if the server sent it itself. */
  function Plan(m: Message): seq<Task> {
    if m.sender == SERVER then []
    else match m.kind
      case PinTransferring => PinPlan(m)
      case ManagerCommand => CommandPlan(m)
      case _ => [Enqueue]
  }

  /** A log is queued if there is room and the mutex is free. */
  function TryEnqueue(server: Server, mutexFree: bool): Server {
    var ok := mutexFree && server.logs < server.logCapacity;
    server.(logs := if ok then server.logs + 1 else server.logs, logged := server.logged + [ok])
  }

  /** The poller's next operation. */
  function PerformTask(s: State, mutexFree: bool, transit: Transit): State
    requires s.server.tasks != []
  {
    var t := s.(server := s.server.(tasks := s.server.tasks[1..]));
    match s.server.tasks[0]
    case Enqueue => t.(server := TryEnqueue(t.server, mutexFree))
    case Send(receiver, kind, content) => ServerBroadcast(t, receiver, kind, content, transit)
  }

  // --- the clients ----------------------------------------------------------------------------

  /** A client takes the head of its inbox: not addressed, it is skipped; a shutdown message stops
      the client; a pin is accepted. A second stage worker that holds a pin leaves the next one. */
  function ClientConsume(c: Client): Client
    requires c.inbox != []
  {
    var m := c.inbox[0];
    var d := c.(inbox := c.inbox[1..], taken := c.taken + [m]);
    if !Addressed(m, c.role) then d
    else if m.kind == Shutdown then d.(running := false)
    else if m.kind == PinTransferring && c.role == SECOND_STAGE then d.(held := Some(PinOf(m)))
    else d
  }

  /** A client broadcasts a message for the server. */
  function ClientSend(s: State, i: nat, kind: Kind, content: Content, transit: Transit): State
    requires i < |s.clients|
  {
    Broadcast(s, Message(s.clients[i].role, SERVER, kind, content), transit)
  }

  // --- the machine ----------------------------------------------------------------------------

  /** Taking the head of the inbox: a client that holds a pin takes only what is not addressed to it,
      or a shutdown message. */
  predicate CanConsume(c: Client) {
    && c.running && c.inbox != []
    && (c.held.Some? && Addressed(c.inbox[0], c.role) ==> c.inbox[0].kind == Shutdown)
  }

  predicate ServerEnabled(server: Server, a: Action)
    requires a.Poll? || a.Perform? || a.TakeLog? || a.SendLog? || a.StopPolling? || a.StopLogging? || a.SayFarewell?
  {
    match a
    case Poll => server.polling && server.tasks == [] && server.inbox != []
    case Perform(_, _) => server.tasks != []
    case TakeLog => server.logging && !server.logInHand && server.logs > 0
    case SendLog(_) => server.logInHand
    case StopPolling => server.polling && server.tasks == []
    case StopLogging => server.logging && !server.logInHand
    case SayFarewell(_) => !server.polling && !server.logging && !server.farewell
  }

  predicate Enabled(s: State, a: Action) {
    match a
    case Announce(i, _) => i < |s.clients| && s.clients[i].running
    case Produce(i, pin, _) =>
      i < |s.clients| && s.clients[i].running && s.clients[i].role == FIRST_STAGE && PinCheck.IsStraight(pin)
    case Order(i, _, _) => i < |s.clients| && s.clients[i].running && s.clients[i].role == MANAGER
    case Consume(i) => i < |s.clients| && CanConsume(s.clients[i])
    case Resend(i, _) =>
      i < |s.clients| && s.clients[i].running && s.clients[i].role == SECOND_STAGE && s.clients[i].held.Some?
    case _ => ServerEnabled(s.server, a)
  }

  function Apply(s: State, a: Action): State
    requires Enabled(s, a)
  {
    match a
    case Announce(i, transit) => ClientSend(s, i, NewClient, Bytes, transit)
    case Produce(i, pin, transit) => ClientSend(s, i, PinTransferring, PinContent(pin), transit)
    case Order(i, target, transit) => ClientSend(s, i, ManagerCommand, CommandContent(target), transit)
    case Consume(i) => s.(clients := s.clients[i := ClientConsume(s.clients[i])])
    case Resend(i, transit) =>
      var c := s.clients[i];
      ClientSend(s.(clients := s.clients[i := c.(held := None)]), i, PinTransferring, PinContent(c.held.value), transit)
    case Poll =>
      var m := s.server.inbox[0];
      s.(server := s.server.(inbox := s.server.inbox[1..], taken := s.server.taken + [m], tasks := Plan(m)))
    case Perform(mutexFree, transit) => PerformTask(s, mutexFree, transit)
    case TakeLog => s.(server := s.server.(logs := s.server.logs - 1, logInHand := true))
    case SendLog(transit) =>
      ServerBroadcast(s.(server := s.server.(logInHand := false)), LOGS_COLLECTOR, Log, Bytes, transit)
    case StopPolling => s.(server := s.server.(polling := false))
    case StopLogging => s.(server := s.server.(logging := false))
    case SayFarewell(transit) =>
      ServerBroadcast(s.(server := s.server.(farewell := true)), ANY_CLIENT, Shutdown, Bytes, transit)
  }

  function Initial(roles: seq<Component>, logCapacity: nat): State {
    State(Server([], [], true, true, false, 0, logCapacity, false, [], [], []),
          seq(|roles|, i requires 0 <= i < |roles| => Client(roles[i], [], None, true, [], [])),
          [])
  }

  /** `acts` can be taken one after the other from `s`. */
  ghost predicate Executable(s: State, acts: seq<Action>)
    decreases |acts|
  {
    acts == [] || (Enabled(s, acts[0]) && Executable(Apply(s, acts[0]), acts[1..]))
  }

  ghost function After(s: State, acts: seq<Action>): State
    requires Executable(s, acts)
    decreases |acts|
  {
    if acts == [] then s else After(Apply(s, acts[0]), acts[1..])
  }

  /** One run after another. */
  lemma {:induction false} RunOn(s: State, a: seq<Action>, b: seq<Action>)
    requires Executable(s, a) && Executable(After(s, a), b)
    ensures Executable(s, a + b) && After(s, a + b) == After(After(s, a), b)
    decreases |a|
  {
    if a == [] {
      assert a + b == b;
    } else {
      assert (a + b)[1..] == a[1..] + b;
      RunOn(Apply(s, a[0]), a[1..], b);
    }
  }

  lemma OneStep(s: State, a: Action)
    requires Enabled(s, a)
    ensures Executable(s, [a]) && After(s, [a]) == Apply(s, a)
  {
    assert [a][1..] == [];
  }
}
