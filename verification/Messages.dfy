/** The datagrams of os_ihw4/mark-10: who sends them, whom they address, what they carry. */
module Messages {

  type Pin = int

  /** A set of components, one bit each; a single component is a set with one bit. */
  type Component = bv8

  const SERVER: Component := 1
  const FIRST_STAGE: Component := 2
  const SECOND_STAGE: Component := 4
  const THIRD_STAGE: Component := 8
  const LOGS_COLLECTOR: Component := 16
  const MANAGER: Component := 32
  const ANY_CLIENT: Component := 62

  datatype Kind = PinTransferring | NewClient | ManagerCommand | ManagerCommandResult | Shutdown | Log

  datatype CommandResult = Success | InvalidArgs | InternalError | NoConnection

  datatype Content = PinContent(pin: Pin) | CommandContent(target: Component) | ResultContent(result: CommandResult) | Bytes

  datatype Message = Message(sender: Component, receiver: Component, kind: Kind, content: Content)

  /** Reading the pin of a message. */
  function PinOf(m: Message): Pin {
    if m.content.PinContent? then m.content.pin else 0
  }

  predicate IsClient(c: Component) {
    c == FIRST_STAGE || c == SECOND_STAGE || c == THIRD_STAGE || c == LOGS_COLLECTOR || c == MANAGER
  }

  /** The test every client applies: a server message whose receiver set contains the client. */
  predicate Addressed(m: Message, role: Component) {
    m.sender == SERVER && m.receiver & role != 0
  }

  /** The only messages a client with this role is addressed by, besides shutdown messages. */
  function ExpectedKind(role: Component): Kind {
    if role == LOGS_COLLECTOR then Log
    else if role == MANAGER then ManagerCommandResult
    else PinTransferring
  }

  /** Who may send what to whom. */
  ghost predicate WellAddressed(m: Message) {
    if m.sender == SERVER then
      match m.kind
      case PinTransferring => (m.receiver == SECOND_STAGE || m.receiver == THIRD_STAGE) && m.content.PinContent?
      case Log => m.receiver == LOGS_COLLECTOR
      case ManagerCommandResult => m.receiver == MANAGER && m.content.ResultContent?
      case Shutdown => m.receiver == ANY_CLIENT || IsClient(m.receiver)
      case _ => false
    else
      && IsClient(m.sender) && m.receiver == SERVER
      && match m.kind
         case PinTransferring => (m.sender == FIRST_STAGE || m.sender == SECOND_STAGE) && m.content.PinContent?
         case ManagerCommand => m.sender == MANAGER && m.content.CommandContent?
         case NewClient => true
         case _ => false
  }

  /** What an addressed message can be, role by role. */
  lemma AddressedKinds(m: Message, role: Component)
    requires WellAddressed(m) && IsClient(role) && Addressed(m, role)
    ensures m.kind == Shutdown || (m.kind == ExpectedKind(role) && role != FIRST_STAGE && m.receiver == role)
  {
  }

  /** A client never takes another client's message, or its own, for one of the server's. */
  lemma ClientMessagesMissClients(m: Message, role: Component)
    requires WellAddressed(m) && IsClient(role) && m.sender != SERVER
    ensures m.receiver & role == 0
  {
  }

  /** A shutdown message reaches every client, or exactly the clients it names. */
  lemma ShutdownReaches(m: Message, role: Component)
    requires WellAddressed(m) && m.sender == SERVER && m.kind == Shutdown && IsClient(role)
    ensures Addressed(m, role) <==> m.receiver == ANY_CLIENT || m.receiver == role
  {
  }
}
