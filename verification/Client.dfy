/** The receiving side of a client of os_ihw4/mark-10: an inbox shared with every other component. */
module Client {
  import opened Messages
  import opened Prelude

  /** How many messages come before the first one addressed to `role`. */
  function Unaddressed(inbox: seq<Message>, role: Component): (n: nat)
    ensures n <= |inbox|
  {
    if inbox == [] || Addressed(inbox[0], role) then 0 else 1 + Unaddressed(inbox[1..], role)
  }

  /** The pin a message transfers, if it does. */
  function PinIn(m: Message): seq<Pin> {
    if m.kind == PinTransferring then [PinOf(m)] else []
  }

  /** The pins addressed to `role`, in order. */
  function AddressedPins(messages: seq<Message>, role: Component): seq<Pin> {
    if messages == [] then []
    else (if Addressed(messages[0], role) then PinIn(messages[0]) else []) + AddressedPins(messages[1..], role)
  }

  ghost predicate NoneAddressed(messages: seq<Message>, role: Component) {
    forall m | m in messages :: !Addressed(m, role)
  }

  lemma {:induction false} PinsConcat(a: seq<Message>, b: seq<Message>, role: Component)
    ensures AddressedPins(a + b, role) == AddressedPins(a, role) + AddressedPins(b, role)
  {
    if a == [] {
      assert a + b == b;
    } else {
      assert (a + b)[1..] == a[1..] + b;
      PinsConcat(a[1..], b, role);
    }
  }

  lemma {:induction false} NoPins(messages: seq<Message>, role: Component)
    requires NoneAddressed(messages, role)
    ensures AddressedPins(messages, role) == []
  {
    if messages != [] {
      NoPins(messages[1..], role);
    }
  }

  /** They are the longest prefix without addressed messages. */
  lemma {:induction false} UnaddressedIsLongest(inbox: seq<Message>, role: Component)
    ensures var n := Unaddressed(inbox, role);
            NoneAddressed(inbox[..n], role) && (n < |inbox| ==> Addressed(inbox[n], role))
  {
    if inbox != [] && !Addressed(inbox[0], role) {
      UnaddressedIsLongest(inbox[1..], role);
      var n := Unaddressed(inbox, role);
      assert inbox[..n] == [inbox[0]] + inbox[1..][..n - 1];
    }
  }

  /** And only they are. */
  lemma {:induction false} LongestIsUnaddressed(inbox: seq<Message>, role: Component, n: nat)
    requires n <= |inbox| && NoneAddressed(inbox[..n], role) && (n < |inbox| ==> Addressed(inbox[n], role))
    ensures n == Unaddressed(inbox, role)
  {
    if n > 0 {
      assert inbox[..n][0] == inbox[0] && inbox[..n][1..] == inbox[1..][..n - 1];
      assert forall m | m in inbox[..n][1..] :: m in inbox[..n];
      LongestIsUnaddressed(inbox[1..], role, n - 1);
    }
  }

  lemma NoneAddressedYet(inbox: seq<Message>, role: Component, n: nat)
    requires n < |inbox| && NoneAddressed(inbox[..n], role) && !Addressed(inbox[n], role)
    ensures NoneAddressed(inbox[..n + 1], role)
  {
    assert inbox[..n + 1] == inbox[..n] + [inbox[n]];
  }

  /** A message that is not addressed is before the first addressed one. */
  lemma {:induction false} NotYet(inbox: seq<Message>, role: Component, n: nat)
    requires n < |inbox| && NoneAddressed(inbox[..n + 1], role)
    ensures n < Unaddressed(inbox, role)
  {
    assert inbox[0] == inbox[..n + 1][0];
    if n > 0 {
      assert forall m | m in inbox[1..][..n] :: m in inbox[..n + 1];
      NotYet(inbox[1..], role, n - 1);
    }
  }

  /** The next message is the first addressed one, or comes before it. */
  lemma HeadDecides(inbox: seq<Message>, role: Component, n: nat)
    requires n < |inbox| && NoneAddressed(inbox[..n], role)
    ensures if Addressed(inbox[n], role) then n == Unaddressed(inbox, role)
            else n < Unaddressed(inbox, role) && NoneAddressed(inbox[..n + 1], role)
  {
    if Addressed(inbox[n], role) {
      LongestIsUnaddressed(inbox, role, n);
    } else {
      NoneAddressedYet(inbox, role, n);
      NotYet(inbox, role, n);
    }
  }

  /** One of the first `calls` receives fails; `failing` is the number of the one that does, if any. */
  predicate Fails(failing: Option<nat>, calls: nat) {
    failing.Some? && failing.value < calls
  }

  /** The receive of `skip_messages_not_from_the_server` that fails: the one that peeks at a message,
      or the one that drops it. */
  datatype Failure = NoFailure | PeekFails(at: nat) | DropFails(at: nat)

  /** It fails before `n` messages are dropped and the next one is found. */
  predicate SkipFails(failure: Failure, n: nat) {
    (failure.PeekFails? && failure.at <= n) || (failure.DropFails? && failure.at < n)
  }

  datatype SkipResult = ReceivedMessageFromServer | NoMessagesInSocket | SocketError

  /** How `receive_data` ends: with the expected message, with false on a shutdown message, with
      false because recv failed, or not yet, because the inbox is exhausted. */
  datatype ReceiveResult = Received | Stopped | Failed | Waiting

  class Client {
    const role: Component
    var inbox: seq<Message>
    ghost var consumed: seq<Message>
    ghost var accepted: seq<Pin>

    ghost predicate Valid()
      reads this
    {
      && IsClient(role)
      && (forall m | m in inbox :: WellAddressed(m))
      && accepted == AddressedPins(consumed, role)
    }

    constructor (role: Component)
      requires IsClient(role)
      ensures Valid() && this.role == role && inbox == [] && consumed == [] && accepted == []
    {
      this.role := role;
      inbox, consumed, accepted := [], [], [];
    }

    /** The network appends a datagram, whoever it is meant for. */
    method Arrive(m: Message)
      requires Valid() && WellAddressed(m)
      modifies this
      ensures Valid() && inbox == old(inbox) + [m] && consumed == old(consumed) && accepted == old(accepted)
    {
      inbox := inbox + [m];
    }

    /** `n` messages of the inbox `start` have been received, none of them for this client. */
    ghost predicate Past(start: seq<Message>, n: nat)
      reads this
    {
      n <= Unaddressed(start, role) && inbox == start[n..] && NoneAddressed(start[..n], role)
    }

    /** One peek behind `n` messages for others. */
    method PeekNext(ghost start: seq<Message>, ghost n: nat) returns (message: Message, isForClient: bool)
      requires Past(start, n) && inbox != []
      ensures n < |start| && message == start[n] && (isForClient <==> Addressed(message, role))
      ensures if isForClient then n == Unaddressed(start, role) else n < Unaddressed(start, role)
    {
      message := inbox[0];
      HeadDecides(start, role, n);
      isForClient := Addressed(message, role);
    }

    /** One recv behind `n` messages for others: the next one is the first for this client, or one more
        for others. */
    method TakeNext(ghost start: seq<Message>, ghost n: nat) returns (message: Message)
      requires Valid() && Past(start, n) && inbox != []
      modifies this
      ensures Valid() && consumed + inbox == old(consumed) + old(inbox)
      ensures n < |start| && message == start[n] && inbox == start[n + 1..]
      ensures !Addressed(message, role) ==> Past(start, n + 1) && accepted == old(accepted)
      ensures Addressed(message, role) ==> n == Unaddressed(start, role) && accepted == old(accepted) + PinIn(message)
      ensures Addressed(message, role) && message.kind != Shutdown ==>
                role != FIRST_STAGE && message.kind == ExpectedKind(role) && message.receiver == role
      ensures message.sender != SERVER ==> message.receiver & role == 0
    {
      message := inbox[0];
      HeadDecides(start, role, n);
      if message.sender != SERVER {
        ClientMessagesMissClients(message, role);
      }
      Take();
    }

    /** `skip_messages_not_from_the_server`: peek; return on a message for this client, else drop it.
        Without a failure exactly the messages before
        the first one for this client are dropped; if a receive fails, those dropped before it. */
    method SkipMessagesNotFromTheServer(failure: Failure) returns (result: SkipResult, message: Message)
      requires Valid()
      modifies this
      ensures Valid() && accepted == old(accepted)
      ensures consumed + inbox == old(consumed) + old(inbox)
      ensures var n := Unaddressed(old(inbox), role);
              if SkipFails(failure, n) then result == SocketError && inbox == old(inbox)[failure.at..]
              else if n == |old(inbox)| then result == NoMessagesInSocket && inbox == []
              else result == ReceivedMessageFromServer && inbox == old(inbox)[n..] && message == old(inbox)[n]
    {
      message := Message(0, 0, PinTransferring, Bytes);
      ghost var start := inbox;
      var n := 0;
      while true
        invariant Valid() && accepted == old(accepted) && consumed + inbox == old(consumed) + old(inbox)
        invariant Past(start, n)
        invariant failure.NoFailure? || n <= failure.at
        decreases |inbox|
      {
        if failure == PeekFails(n) {
          return SocketError, message;
        }
        if inbox == [] {
          LongestIsUnaddressed(start, role, n);
          return NoMessagesInSocket, message;
        }
        var isForClient;
        message, isForClient := PeekNext(start, n);
        if isForClient {
          return ReceivedMessageFromServer, message;
        }
        if failure == DropFails(n) {
          return SocketError, message;
        }
        message := TakeNext(start, n);
        n := n + 1;
      }
    }

    /** `client_should_stop`, given what getsockopt says about the socket. A failing receive, which the
        source asserts not to happen, is else a reason to stop. */
    method ClientShouldStop(socketAlive: bool, failure: Failure) returns (stop: bool)
      requires Valid()
      modifies this
      ensures Valid() && accepted == old(accepted)
      ensures consumed + inbox == old(consumed) + old(inbox)
      ensures var n := Unaddressed(old(inbox), role);
              if !socketAlive then stop && inbox == old(inbox)
              else if SkipFails(failure, n) then stop && inbox == old(inbox)[failure.at..]
              else inbox == old(inbox)[n..] && (stop <==> inbox != [] && inbox[0].kind == Shutdown)
    {
      if !socketAlive {
        return true;
      }
      var result, message := SkipMessagesNotFromTheServer(failure);
      match result {
        case ReceivedMessageFromServer =>
          UnaddressedIsLongest(old(inbox), role);
          assert message.sender == SERVER && message.receiver & role != 0;
          return message.kind == Shutdown;
        case NoMessagesInSocket =>
          return false;
        case SocketError =>
          return true;
      }
    }

    /** `receive_data`: the `continue` on a message of another client still evaluates the loop
        condition, which is true because no client message addresses a client. Unless a receive fails
        before, the first message of the inbox for this client is returned, or stops it; nothing else
        is ever returned, and nothing behind it is touched. */
    method ReceiveData(expected: Kind, failing: Option<nat>) returns (result: ReceiveResult, message: Message)
      requires Valid() && role != FIRST_STAGE && expected == ExpectedKind(role)
      modifies this
      ensures Valid() && consumed + inbox == old(consumed) + old(inbox)
      ensures var n := Unaddressed(old(inbox), role);
              if Fails(failing, n + 1) then result == Failed && inbox == old(inbox)[failing.value..]
              else if n == |old(inbox)| then result == Waiting && inbox == []
              else
                && message == old(inbox)[n] && inbox == old(inbox)[n + 1..]
                && result == if message.kind == Shutdown then Stopped else Received
      ensures result == Received ==> message.sender == SERVER && message.kind == expected && message.receiver == role
      ensures accepted == old(accepted) + if result == Received then PinIn(message) else []
    {
      message := Message(0, 0, PinTransferring, Bytes);
      ghost var start := inbox;
      var calls := 0;
      while true
        invariant Valid() && consumed + inbox == old(consumed) + old(inbox) && accepted == old(accepted)
        invariant Past(start, calls) && !Fails(failing, calls)
        decreases |inbox|
      {
        if failing == Some(calls) {
          return Failed, message;
        }
        if inbox == [] {
          LongestIsUnaddressed(start, role, calls);
          return Waiting, message;
        }
        message := TakeNext(start, calls);
        calls := calls + 1;
        if message.sender == SERVER {
          if message.kind == Shutdown && message.receiver & role != 0 {
            return Stopped, message;
          }
        }
        if message.kind == expected && message.receiver & role != 0 {
          return Received, message;
        }
      }
    }

    /** One recv: the head of the inbox is consumed; if it is a pin for this client, it is accepted. */
    method Take()
      requires Valid() && inbox != []
      modifies this
      ensures Valid() && consumed == old(consumed) + [old(inbox)[0]] && inbox == old(inbox)[1..]
      ensures consumed + inbox == old(consumed) + old(inbox)
      ensures accepted == old(accepted) +
                if Addressed(old(inbox)[0], role) then PinIn(old(inbox)[0]) else []
      ensures Addressed(old(inbox)[0], role) && old(inbox)[0].kind != Shutdown ==>
                role != FIRST_STAGE && old(inbox)[0].kind == ExpectedKind(role) && old(inbox)[0].receiver == role
    {
      if Addressed(inbox[0], role) {
        AddressedKinds(inbox[0], role);
      }
      PinsConcat(consumed, [inbox[0]], role);
      assert AddressedPins([inbox[0]], role) ==
             if Addressed(inbox[0], role) then PinIn(inbox[0]) else [];
      accepted := accepted + AddressedPins([inbox[0]], role);
      consumed, inbox := consumed + [inbox[0]], inbox[1..];
    }

    /** `receive_not_crooked_pin` and `receive_sharpened_pin`: unless a receive fails before, a pin is
        received exactly when the first message for this worker is one, and it is that pin. */
    method ReceivePin(failing: Option<nat>) returns (result: ReceiveResult, pin: Pin)
      requires Valid() && (role == SECOND_STAGE || role == THIRD_STAGE)
      modifies this
      ensures Valid() && consumed + inbox == old(consumed) + old(inbox)
      ensures var n := Unaddressed(old(inbox), role);
              && (result == Received <==>
                  !Fails(failing, n + 1) && n < |old(inbox)| && old(inbox)[n].kind == PinTransferring)
              && (result == Received ==> old(inbox)[n].content == PinContent(pin) && inbox == old(inbox)[n + 1..])
              && (result == Waiting <==> !Fails(failing, n + 1) && n == |old(inbox)|)
      ensures accepted == old(accepted) + if result == Received then [pin] else []
    {
      UnaddressedIsLongest(old(inbox), role);
      var message;
      result, message := ReceiveData(PinTransferring, failing);
      assert result == Received ==> message in old(inbox);
      pin := PinOf(message);
    }

    /** `send_manager_command_to_server`, given whether the order could be sent: its final assertion
        holds, and the result is that of the first message for this manager. None: no message for the
        manager has arrived yet. */
    method SendManagerCommandToServer(sent: bool, failing: Option<nat>) returns (result: Option<CommandResult>)
      requires Valid() && role == MANAGER
      modifies this
      ensures Valid() && accepted == old(accepted) && consumed + inbox == old(consumed) + old(inbox)
      ensures var n := Unaddressed(old(inbox), role);
              if !sent then result == Some(NoConnection) && inbox == old(inbox)
              else if Fails(failing, n + 1) then result == Some(NoConnection)
              else if n == |old(inbox)| then result == None
              else if old(inbox)[n].kind == Shutdown then result == Some(NoConnection)
              else result.Some? && old(inbox)[n].content == ResultContent(result.value) && inbox == old(inbox)[n + 1..]
    {
      if !sent {
        return Some(NoConnection);
      }
      UnaddressedIsLongest(old(inbox), role);
      var status, answer := ReceiveData(ManagerCommandResult, failing);
      match status {
        case Received =>
          assert answer.receiver == MANAGER;
          assert answer in old(inbox);
          result := Some(answer.content.result);
        case Waiting =>
          result := None;
        case _ =>
          result := Some(NoConnection);
      }
    }
  }
}
