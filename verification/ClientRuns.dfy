/** What the receiving side of a client does is a run of single receives in the machine of the network. */
module ClientRuns {
  import C = Client
  import opened Messages
  import opened Network
  import opened Prelude

  /** Client `i` takes `n` messages, one after the other. */
  function Takes(i: nat, n: nat): seq<Action> {
    if n == 0 then [] else [Consume(i)] + Takes(i, n - 1)
  }

  /** The state in which client `i` is `c` and nothing else has changed. */
  function WithClient(s: State, i: nat, c: Client): State
    requires i < |s.clients|
  {
    s.(clients := s.clients[i := c])
  }

  lemma WithClientTwice(s: State, i: nat, c: Client, d: Client)
    requires i < |s.clients|
    ensures WithClient(WithClient(s, i, c), i, d) == WithClient(s, i, d)
    ensures WithClient(s, i, s.clients[i]) == s
  {
    assert s.clients[i := c][i := d] == s.clients[i := d];
    assert s.clients[i := s.clients[i]] == s.clients;
  }

  lemma FirstTake(s: State, i: nat, n: nat, t: State)
    requires n > 0 && Enabled(s, Consume(i)) && Apply(s, Consume(i)) == t && Executable(t, Takes(i, n - 1))
    ensures Executable(s, Takes(i, n)) && After(s, Takes(i, n)) == After(t, Takes(i, n - 1))
  {
    assert Takes(i, n)[1..] == Takes(i, n - 1);
  }

  /** What a client is after skipping `n` messages. */
  function Skipped(c: Client, n: nat): Client
    requires n <= |c.inbox|
  {
    c.(inbox := c.inbox[n..], taken := c.taken + c.inbox[..n])
  }

  /** A message for somebody else changes nothing but the inbox. */
  lemma SkipOne(s: State, i: nat)
    requires i < |s.clients| && s.clients[i].running && s.clients[i].inbox != []
    requires !Addressed(s.clients[i].inbox[0], s.clients[i].role)
    ensures Enabled(s, Consume(i))
    ensures Apply(s, Consume(i)) == WithClient(s, i, Skipped(s.clients[i], 1))
  {
    assert s.clients[i].inbox[..1] == [s.clients[i].inbox[0]];
  }

  lemma SkipMore(c: Client, n: nat)
    requires 0 < n <= |c.inbox|
    ensures Skipped(Skipped(c, 1), n - 1) == Skipped(c, n)
  {
    assert c.inbox[1..][n - 1..] == c.inbox[n..];
    assert c.taken + c.inbox[..1] + c.inbox[1..][..n - 1] == c.taken + c.inbox[..n];
  }

  /** `skip_messages_not_from_the_server` is a run of receives, after which the inbox starts with a
      message for this client or is empty; no pin is accepted on the way. */
  lemma {:induction false} SkippingIsARun(s: State, i: nat)
    requires i < |s.clients| && s.clients[i].running
    ensures var c := s.clients[i];
            var n := C.Unaddressed(c.inbox, c.role);
            && Executable(s, Takes(i, n))
            && After(s, Takes(i, n)) == WithClient(s, i, Skipped(c, n))
    decreases |s.clients[i].inbox|
  {
    var c := s.clients[i];
    var n := C.Unaddressed(c.inbox, c.role);
    if c.inbox != [] && !Addressed(c.inbox[0], c.role) {
      SkipOne(s, i);
      var d := Skipped(c, 1);
      var t := WithClient(s, i, d);
      SkippingIsARun(t, i);
      FirstTake(s, i, n, t);
      SkipMore(c, n);
      WithClientTwice(s, i, d, Skipped(d, n - 1));
    } else {
      assert Skipped(c, 0) == c;
      WithClientTwice(s, i, c, c);
    }
  }

  /** What a client is after taking the first message for it, which `n` others precede: it stops on a
      shutdown message, and a second stage worker holds a pin. */
  function Taken(c: Client, n: nat): Client
    requires n < |c.inbox|
  {
    var m := c.inbox[n];
    var d := Skipped(c, n + 1);
    if m.kind == Shutdown then d.(running := false)
    else if m.kind == PinTransferring && c.role == SECOND_STAGE then d.(held := Some(PinOf(m)))
    else d
  }

  lemma TakeOne(s: State, i: nat)
    requires i < |s.clients| && s.clients[i].running && s.clients[i].held.None?
    requires s.clients[i].inbox != [] && Addressed(s.clients[i].inbox[0], s.clients[i].role)
    ensures Enabled(s, Consume(i))
    ensures Apply(s, Consume(i)) == WithClient(s, i, Taken(s.clients[i], 0))
  {
    assert s.clients[i].inbox[..1] == [s.clients[i].inbox[0]];
  }

  lemma SkipThenTake(c: Client, n: nat)
    requires n < |c.inbox|
    ensures Taken(Skipped(c, n), 0) == Taken(c, n)
  {
    assert c.inbox[n..][1..] == c.inbox[n + 1..];
    assert c.taken + c.inbox[..n] + c.inbox[n..][..1] == c.taken + c.inbox[..n + 1];
  }

  /** `receive_data` that returns a message, or stops because of it, is a run of receives: the messages
      for others, and then that message, the first one for this client. */
  lemma ReceivingIsARun(s: State, i: nat)
    requires i < |s.clients| && s.clients[i].running && s.clients[i].held.None?
    requires C.Unaddressed(s.clients[i].inbox, s.clients[i].role) < |s.clients[i].inbox|
    ensures var c := s.clients[i];
            var n := C.Unaddressed(c.inbox, c.role);
            && Executable(s, Takes(i, n) + [Consume(i)])
            && After(s, Takes(i, n) + [Consume(i)]) == WithClient(s, i, Taken(c, n))
  {
    var c := s.clients[i];
    var n := C.Unaddressed(c.inbox, c.role);
    C.UnaddressedIsLongest(c.inbox, c.role);
    SkippingIsARun(s, i);
    var t := WithClient(s, i, Skipped(c, n));
    TakeOne(t, i);
    OneStep(t, Consume(i));
    RunOn(s, Takes(i, n), [Consume(i)]);
    SkipThenTake(c, n);
    WithClientTwice(s, i, Skipped(c, n), Taken(c, n));
  }
}
