/**
 The three-stage pin pipeline of os_ihw2: any number of first, second and third workers share two
 bounded rings, each guarded by the semaphores `free`, `added` and `access`.

 One step of the machine is one semaphore operation or one critical-section action.
 */
module Pipeline {
  import opened PinCheck
  import opened Ring
  import opened Sums

  type Pin = int

  datatype SendPhase = AwaitFree | SendAccess | Write | PostAdded | SendRelease
  datatype ReceivePhase = AwaitAdded | ReceiveAccess | Read | PostFree(pin: Pin) | ReceiveRelease(pin: Pin)

  /** A first worker is Producing or Sending on channel 0; a second worker is Receiving on channel 0
      or Sending on channel 1; a third worker is Receiving on channel 1. */
  datatype Worker =
    | Producing
    | Sending(channel: nat, pin: Pin, send: SendPhase)
    | Receiving(channel: nat, receive: ReceivePhase)

  datatype Role = First | Second | Third

  function RoleOf(w: Worker): Role {
    match w
    case Producing => First
    case Sending(c, _, _) => if c == 0 then First else Second
    case Receiving(c, _) => if c == 0 then Second else Third
  }

  /** Shared memory of two stages. `queue`, `sent` and `received` record its history. */
  datatype Channel = Channel(
    ring: Ring<Pin>,
    free: nat,
    added: nat,
    access: nat,
    queue: seq<Pin>,
    sent: seq<Pin>,
    received: seq<Pin>)

  datatype State = State(
    workers: seq<Worker>,
    channels: seq<Channel>,
    produced: seq<Pin>,
    consumed: seq<Pin>)

  datatype Action = Produce(i: nat, pin: Pin) | Advance(i: nat)

  function InitialWorker(role: Role): Worker {
    match role
    case First => Producing
    case Second => Receiving(0, AwaitAdded)
    case Third => Receiving(1, AwaitAdded)
  }

  function InitialChannel(capacity: nat): Channel {
    Channel(Ring(seq(capacity, _ => 0), 0, 0), capacity, 0, 1, [], [], [])
  }

  function Initial(roles: seq<Role>, capacity: nat): State {
    State(seq(|roles|, i requires 0 <= i < |roles| => InitialWorker(roles[i])),
          [InitialChannel(capacity), InitialChannel(capacity)], [], [])
  }

  ghost predicate Shape(s: State) {
    && |s.channels| == 2
    && (forall c | 0 <= c < 2 :: s.channels[c].ring.InBounds())
    && (forall i | 0 <= i < |s.workers| :: !s.workers[i].Producing? ==> s.workers[i].channel < 2)
  }

  /** A semaphore operation is enabled when it does not block. */
  predicate Enabled(s: State, a: Action)
    requires |s.channels| == 2
  {
    match a
    case Produce(i, _) => i < |s.workers| && s.workers[i].Producing?
    case Advance(i) =>
      i < |s.workers| &&
      match s.workers[i]
      case Producing => false
      case Sending(c, _, phase) =>
        c < 2 && (phase.AwaitFree? ==> s.channels[c].free > 0) && (phase.SendAccess? ==> s.channels[c].access > 0)
      case Receiving(c, phase) =>
        c < 2 && (phase.AwaitAdded? ==> s.channels[c].added > 0) && (phase.ReceiveAccess? ==> s.channels[c].access > 0)
  }

  /** The next statement of `send_pin`, and what the worker does when it returns. */
  function SendStep(w: Worker, ch: Channel): (Worker, Channel)
    requires w.Sending? && ch.ring.InBounds()
    requires (w.send.AwaitFree? ==> ch.free > 0) && (w.send.SendAccess? ==> ch.access > 0)
  {
    match w.send
    case AwaitFree => (w.(send := SendAccess), ch.(free := ch.free - 1))
    case SendAccess => (w.(send := Write), ch.(access := ch.access - 1))
    case Write =>
      (w.(send := PostAdded),
       ch.(ring := ch.ring.Put(w.pin), queue := ch.queue + [w.pin], sent := ch.sent + [w.pin]))
    case PostAdded => (w.(send := SendRelease), ch.(added := ch.added + 1))
    case SendRelease =>
      (if w.channel == 0 then Producing else Receiving(0, AwaitAdded), ch.(access := ch.access + 1))
  }

  /** The next statement of `wait_for_pin`. */
  function ReceiveStep(w: Worker, ch: Channel): (Worker, Channel)
    requires w.Receiving? && ch.ring.InBounds()
    requires (w.receive.AwaitAdded? ==> ch.added > 0) && (w.receive.ReceiveAccess? ==> ch.access > 0)
  {
    match w.receive
    case AwaitAdded => (w.(receive := ReceiveAccess), ch.(added := ch.added - 1))
    case ReceiveAccess => (w.(receive := Read), ch.(access := ch.access - 1))
    case Read =>
      var pin := ch.ring.cells[ch.ring.read];
      (w.(receive := PostFree(pin)),
       ch.(ring := ch.ring.Drop(), queue := if ch.queue == [] then [] else ch.queue[1..],
           received := ch.received + [pin]))
    case PostFree(pin) => (w.(receive := ReceiveRelease(pin)), ch.(free := ch.free + 1))
    case ReceiveRelease(pin) =>
      (if w.channel == 0 then Sending(1, pin, AwaitFree) else Receiving(1, AwaitAdded),
       ch.(access := ch.access + 1))
  }

  function WorkerStep(w: Worker, ch: Channel): (Worker, Channel)
    requires !w.Producing? && ch.ring.InBounds()
    requires w.Sending? ==> (w.send.AwaitFree? ==> ch.free > 0) && (w.send.SendAccess? ==> ch.access > 0)
    requires w.Receiving? ==>
      (w.receive.AwaitAdded? ==> ch.added > 0) && (w.receive.ReceiveAccess? ==> ch.access > 0)
  {
    if w.Sending? then SendStep(w, ch) else ReceiveStep(w, ch)
  }

  function Apply(s: State, a: Action): State
    requires Shape(s) && Enabled(s, a)
  {
    match a
    case Produce(i, pin) =>
      if IsStraight(pin) then
        s.(workers := s.workers[i := Sending(0, pin, AwaitFree)], produced := s.produced + [pin])
      else
        s
    case Advance(i) =>
      var w := s.workers[i];
      var (w', ch') := WorkerStep(w, s.channels[w.channel]);
      s.(workers := s.workers[i := w'],
         channels := s.channels[w.channel := ch'],
         consumed := if w.Receiving? && w.channel == 1 && w.receive.ReceiveRelease?
                     then s.consumed + [w.receive.pin] else s.consumed)
  }

  // --- the accounting -------------------------------------------------------------------------

  /** 1 for the worker inside the section guarded by the access semaphore of channel `c`. */
  ghost function InSection(c: nat, w: Worker): int {
    match w
    case Producing => 0
    case Sending(d, _, phase) => if d == c && !phase.AwaitFree? && !phase.SendAccess? then 1 else 0
    case Receiving(d, phase) => if d == c && !phase.AwaitAdded? && !phase.ReceiveAccess? then 1 else 0
  }

  /** 1 for a worker that makes `added` lag behind the queue length: a permit taken and not yet
      turned into a read, or a write not yet announced. */
  ghost function AddedLag(c: nat, w: Worker): int {
    match w
    case Producing => 0
    case Sending(d, _, phase) => if d == c && phase.PostAdded? then 1 else 0
    case Receiving(d, phase) => if d == c && (phase.ReceiveAccess? || phase.Read?) then 1 else 0
  }

  ghost function FreeLag(c: nat, w: Worker): int {
    match w
    case Producing => 0
    case Sending(d, _, phase) => if d == c && (phase.SendAccess? || phase.Write?) then 1 else 0
    case Receiving(d, phase) => if d == c && phase.PostFree? then 1 else 0
  }

  /** 1 for a worker that holds the pin `p`. */
  ghost function Carries(p: Pin, w: Worker): int {
    match w
    case Producing => 0
    case Sending(_, q, phase) => if q == p && (phase.AwaitFree? || phase.SendAccess? || phase.Write?) then 1 else 0
    case Receiving(_, phase) =>
      if (phase.PostFree? || phase.ReceiveRelease?) && phase.pin == p then 1 else 0
  }

  /** A channel agrees with the number of workers inside it and with its lagging permits. */
  ghost predicate Balanced(ch: Channel, inside: int, addedLag: int, freeLag: int) {
    && ch.ring.Holds(ch.queue)
    && ch.sent == ch.received + ch.queue
    && ch.access + inside == 1
    && ch.added + addedLag == |ch.queue|
    && ch.free + freeLag == |ch.ring.cells| - |ch.queue|
  }

  ghost predicate ChannelInv(s: State, c: nat)
    requires |s.channels| == 2 && c < 2
  {
    Balanced(s.channels[c], Total(InSection, c, s.workers), Total(AddedLag, c, s.workers), Total(FreeLag, c, s.workers))
  }

  ghost predicate Inv(roles: seq<Role>, s: State) {
    && Shape(s)
    && |s.workers| == |roles|
    && (forall i | 0 <= i < |roles| :: RoleOf(s.workers[i]) == roles[i])
    && ChannelInv(s, 0)
    && ChannelInv(s, 1)
    && (forall p | p in s.produced :: IsStraight(p))
  }

  /** Every copy of `p` produced is held by a worker, in a ring, or consumed. */
  ghost predicate Conserved(s: State, p: Pin)
    requires |s.channels| == 2
  {
    Total(Carries, p, s.workers) + multiset(s.channels[0].queue)[p] + multiset(s.channels[1].queue)[p]
      + multiset(s.consumed)[p] == multiset(s.produced)[p]
  }

  lemma ChannelUpdate(ws: seq<Worker>, i: nat, w: Worker, c: nat)
    requires i < |ws|
    ensures Total(InSection, c, ws[i := w]) == Total(InSection, c, ws) - InSection(c, ws[i]) + InSection(c, w)
    ensures Total(AddedLag, c, ws[i := w]) == Total(AddedLag, c, ws) - AddedLag(c, ws[i]) + AddedLag(c, w)
    ensures Total(FreeLag, c, ws[i := w]) == Total(FreeLag, c, ws) - FreeLag(c, ws[i]) + FreeLag(c, w)
  {
    TotalUpdate(InSection, c, ws, i, w);
    TotalUpdate(AddedLag, c, ws, i, w);
    TotalUpdate(FreeLag, c, ws, i, w);
  }

  /** The permit a worker holds guarantees a free cell to write or an entry to read. */
  lemma PermitIsBacked(s: State, i: nat)
    requires Shape(s) && i < |s.workers| && !s.workers[i].Producing?
    requires ChannelInv(s, s.workers[i].channel)
    ensures var w := s.workers[i];
            var ch := s.channels[w.channel];
            && (w.Sending? && w.send.Write? ==> |ch.queue| < |ch.ring.cells|)
            && (w.Receiving? && w.receive.Read? ==> ch.queue != [])
  {
    TotalMember(FreeLag, s.workers[i].channel, s.workers, i);
    TotalMember(AddedLag, s.workers[i].channel, s.workers, i);
  }

  lemma SendKeepsBalance(w: Worker, ch: Channel, inside: int, addedLag: int, freeLag: int)
    requires w.Sending? && Balanced(ch, inside, addedLag, freeLag)
    requires (w.send.AwaitFree? ==> ch.free > 0) && (w.send.SendAccess? ==> ch.access > 0)
    requires w.send.Write? ==> |ch.queue| < |ch.ring.cells|
    ensures var (w', ch') := SendStep(w, ch);
            var c := w.channel;
            Balanced(ch', inside - InSection(c, w) + InSection(c, w'),
                     addedLag - AddedLag(c, w) + AddedLag(c, w'), freeLag - FreeLag(c, w) + FreeLag(c, w'))
  {
    if w.send.Write? {
      ch.ring.PutHolds(ch.queue, w.pin);
    }
  }

  lemma ReceiveKeepsBalance(w: Worker, ch: Channel, inside: int, addedLag: int, freeLag: int)
    requires w.Receiving? && Balanced(ch, inside, addedLag, freeLag)
    requires (w.receive.AwaitAdded? ==> ch.added > 0) && (w.receive.ReceiveAccess? ==> ch.access > 0)
    requires w.receive.Read? ==> ch.queue != []
    ensures var (w', ch') := ReceiveStep(w, ch);
            var c := w.channel;
            Balanced(ch', inside - InSection(c, w) + InSection(c, w'),
                     addedLag - AddedLag(c, w) + AddedLag(c, w'), freeLag - FreeLag(c, w) + FreeLag(c, w'))
  {
    if w.receive.Read? {
      ch.ring.DropHolds(ch.queue);
    }
  }

  lemma AdvanceKeepsOwnChannel(s: State, i: nat)
    requires Shape(s) && Enabled(s, Advance(i)) && ChannelInv(s, s.workers[i].channel)
    ensures ChannelInv(Apply(s, Advance(i)), s.workers[i].channel)
  {
    var w := s.workers[i];
    var c := w.channel;
    ChannelUpdate(s.workers, i, WorkerStep(w, s.channels[c]).0, c);
    PermitIsBacked(s, i);
    var inside, added, free :=
      Total(InSection, c, s.workers), Total(AddedLag, c, s.workers), Total(FreeLag, c, s.workers);
    if w.Sending? {
      SendKeepsBalance(w, s.channels[c], inside, added, free);
    } else {
      ReceiveKeepsBalance(w, s.channels[c], inside, added, free);
    }
  }

  lemma AdvanceKeepsOtherChannel(s: State, i: nat)
    requires Shape(s) && Enabled(s, Advance(i)) && ChannelInv(s, 1 - s.workers[i].channel)
    ensures ChannelInv(Apply(s, Advance(i)), 1 - s.workers[i].channel)
  {
    ChannelUpdate(s.workers, i, Apply(s, Advance(i)).workers[i], 1 - s.workers[i].channel);
  }

  lemma StepKeepsRoles(s: State, a: Action)
    requires Shape(s) && Enabled(s, a)
    ensures var t := Apply(s, a);
            && Shape(t) && |t.workers| == |s.workers|
            && forall i | 0 <= i < |s.workers| :: RoleOf(t.workers[i]) == RoleOf(s.workers[i])
  {
    if a.Advance? {
      var ch := s.channels[s.workers[a.i].channel];
      WrapMod(ch.ring.read + 1, |ch.ring.cells|);
      WrapMod(ch.ring.write + 1, |ch.ring.cells|);
    }
  }

  lemma ProduceKeepsChannel(s: State, i: nat, pin: Pin, c: nat)
    requires Shape(s) && Enabled(s, Produce(i, pin)) && c < 2 && ChannelInv(s, c)
    ensures ChannelInv(Apply(s, Produce(i, pin)), c)
  {
    ChannelUpdate(s.workers, i, Sending(0, pin, AwaitFree), c);
  }

  lemma StepKeepsInv(roles: seq<Role>, s: State, a: Action)
    requires Inv(roles, s) && Enabled(s, a)
    ensures Inv(roles, Apply(s, a))
  {
    StepKeepsRoles(s, a);
    match a {
      case Advance(i) =>
        AdvanceKeepsOwnChannel(s, i);
        AdvanceKeepsOtherChannel(s, i);
      case Produce(i, pin) =>
        ProduceKeepsChannel(s, i, pin, 0);
        ProduceKeepsChannel(s, i, pin, 1);
    }
  }

  /** A worker and its channel exchange pins without losing or copying one. */
  lemma SendConserves(w: Worker, ch: Channel, p: Pin)
    requires w.Sending? && ch.ring.InBounds()
    requires (w.send.AwaitFree? ==> ch.free > 0) && (w.send.SendAccess? ==> ch.access > 0)
    ensures var (w', ch') := SendStep(w, ch);
            Carries(p, w') + multiset(ch'.queue)[p] == Carries(p, w) + multiset(ch.queue)[p]
  {
    assert multiset(ch.queue + [w.pin]) == multiset(ch.queue) + multiset{w.pin};
  }

  lemma ReceiveConserves(w: Worker, ch: Channel, p: Pin)
    requires w.Receiving? && w.channel < 2 && ch.ring.InBounds()
    requires (w.receive.AwaitAdded? ==> ch.added > 0) && (w.receive.ReceiveAccess? ==> ch.access > 0)
    requires w.receive.Read? ==> ch.queue != [] && ch.ring.cells[ch.ring.read] == ch.queue[0]
    ensures var (w', ch') := ReceiveStep(w, ch);
            Carries(p, w') + multiset(ch'.queue)[p]
              + (if w.channel == 1 && w.receive == ReceiveRelease(p) then 1 else 0)
            == Carries(p, w) + multiset(ch.queue)[p]
  {
    if w.receive.Read? {
      assert ch.queue == [ch.queue[0]] + ch.queue[1..];
      assert multiset(ch.queue) == multiset{ch.queue[0]} + multiset(ch.queue[1..]);
    }
  }

  lemma WorkerStepConserves(s: State, i: nat, p: Pin)
    requires Shape(s) && Enabled(s, Advance(i)) && ChannelInv(s, s.workers[i].channel)
    ensures var w := s.workers[i];
            var (w', ch') := WorkerStep(w, s.channels[w.channel]);
            Carries(p, w') + multiset(ch'.queue)[p]
              + (if w.Receiving? && w.channel == 1 && w.receive == ReceiveRelease(p) then 1 else 0)
            == Carries(p, w) + multiset(s.channels[w.channel].queue)[p]
  {
    PermitIsBacked(s, i);
    var w := s.workers[i];
    var ch := s.channels[w.channel];
    if w.Sending? {
      SendConserves(w, ch, p);
    } else {
      if w.receive.Read? {
        ch.ring.DropHolds(ch.queue);
      }
      ReceiveConserves(w, ch, p);
    }
  }

  lemma AdvanceConserves(s: State, i: nat, p: Pin)
    requires Shape(s) && Enabled(s, Advance(i)) && Conserved(s, p) && ChannelInv(s, s.workers[i].channel)
    ensures |Apply(s, Advance(i)).channels| == 2 && Conserved(Apply(s, Advance(i)), p)
  {
    var w := s.workers[i];
    TotalUpdate(Carries, p, s.workers, i, WorkerStep(w, s.channels[w.channel]).0);
    WorkerStepConserves(s, i, p);
  }

  lemma StepConserves(s: State, a: Action, p: Pin)
    requires Shape(s) && Enabled(s, a) && Conserved(s, p) && ChannelInv(s, 0) && ChannelInv(s, 1)
    ensures |Apply(s, a).channels| == 2 && Conserved(Apply(s, a), p)
  {
    match a {
      case Advance(i) => AdvanceConserves(s, i, p);
      case Produce(i, pin) => TotalUpdate(Carries, p, s.workers, i, Sending(0, pin, AwaitFree));
    }
  }

  lemma InitialInv(roles: seq<Role>, capacity: nat, p: Pin)
    requires capacity >= 1
    ensures Inv(roles, Initial(roles, capacity)) && Conserved(Initial(roles, capacity), p)
  {
    var s := Initial(roles, capacity);
    WrapMod(0, capacity);
    TotalConstant(Carries, p, s.workers, 0);
    TotalConstant(InSection, 0, s.workers, 0);
    TotalConstant(AddedLag, 0, s.workers, 0);
    TotalConstant(FreeLag, 0, s.workers, 0);
    TotalConstant(InSection, 1, s.workers, 0);
    TotalConstant(AddedLag, 1, s.workers, 0);
    TotalConstant(FreeLag, 1, s.workers, 0);
  }

  // --- runs -----------------------------------------------------------------------------------

  ghost predicate Executable(s: State, acts: seq<Action>)
    requires Shape(s)
    decreases |acts|
  {
    acts == [] ||
    (Enabled(s, acts[0]) && (StepKeepsRoles(s, acts[0]); Executable(Apply(s, acts[0]), acts[1..])))
  }

  ghost function After(s: State, acts: seq<Action>): State
    requires Shape(s) && Executable(s, acts)
    decreases |acts|
  {
    if acts == [] then s else StepKeepsRoles(s, acts[0]); After(Apply(s, acts[0]), acts[1..])
  }

  lemma {:induction false} RunKeepsInv(roles: seq<Role>, s: State, acts: seq<Action>, p: Pin)
    requires Inv(roles, s) && Conserved(s, p) && Executable(s, acts)
    ensures Inv(roles, After(s, acts)) && Conserved(After(s, acts), p)
    decreases |acts|
  {
    if acts != [] {
      StepKeepsInv(roles, s, acts[0]);
      StepConserves(s, acts[0], p);
      RunKeepsInv(roles, Apply(s, acts[0]), acts[1..], p);
    }
  }

  /** Every kind of worker is started at least once, as `parse_args` enforces. */
  ghost predicate Staffed(roles: seq<Role>) {
    First in roles && Second in roles && Third in roles
  }

  ghost predicate Reachable(roles: seq<Role>, capacity: nat, s: State) {
    && capacity >= 1
    && Staffed(roles)
    && (InitialInv(roles, capacity, 0);
        exists acts :: Executable(Initial(roles, capacity), acts) && s == After(Initial(roles, capacity), acts))
  }

  lemma ReachableIsSound(roles: seq<Role>, capacity: nat, s: State, p: Pin)
    requires Reachable(roles, capacity, s)
    ensures Inv(roles, s) && Conserved(s, p)
  {
    InitialInv(roles, capacity, p);
    var acts :| Executable(Initial(roles, capacity), acts) && s == After(Initial(roles, capacity), acts);
    RunKeepsInv(roles, Initial(roles, capacity), acts, p);
  }

  /** Conservation over every run: each produced pin is with a worker, in a ring, or consumed, and
      every ring delivers its pins in the order they were sent. */
  lemma PinsAreConserved(roles: seq<Role>, capacity: nat, s: State, p: Pin)
    requires Reachable(roles, capacity, s)
    ensures |s.channels| == 2
    ensures multiset(s.produced)[p] ==
            Total(Carries, p, s.workers) + multiset(s.channels[0].queue)[p]
              + multiset(s.channels[1].queue)[p] + multiset(s.consumed)[p]
    ensures s.channels[0].sent == s.channels[0].received + s.channels[0].queue
    ensures s.channels[1].sent == s.channels[1].received + s.channels[1].queue
  {
    ReachableIsSound(roles, capacity, s, p);
  }

  /** No rejected pin ever reaches a third worker, and none is delivered more often than produced. */
  lemma OnlyStraightPinsAreConsumed(roles: seq<Role>, capacity: nat, s: State, p: Pin)
    requires Reachable(roles, capacity, s) && p in s.consumed
    ensures IsStraight(p) && multiset(s.consumed)[p] <= multiset(s.produced)[p]
  {
    ReachableIsSound(roles, capacity, s, p);
    TotalAtLeast(Carries, p, s.workers, 0);
    assert multiset(s.produced)[p] > 0;
  }

  /** At most one worker at a time touches the memory of a channel. */
  lemma SectionsAreExclusive(roles: seq<Role>, capacity: nat, s: State, c: nat, i: nat, j: nat)
    requires Reachable(roles, capacity, s) && c < 2 && i < j < |s.workers|
    ensures InSection(c, s.workers[i]) + InSection(c, s.workers[j]) <= 1
  {
    ReachableIsSound(roles, capacity, s, 0);
    TotalUpdate(InSection, c, s.workers, i, Producing);
    TotalMember(InSection, c, s.workers[i := Producing], j);
  }

  // --- progress -------------------------------------------------------------------------------

  /** No worker that has started sending or receiving can move. */
  ghost predicate Stalled(s: State)
    requires |s.channels| == 2
  {
    forall i: nat :: !Enabled(s, Advance(i))
  }

  /** In a stalled state every worker waits for a `free` or an `added` permit that is not there. */
  lemma StalledWorker(roles: seq<Role>, s: State, i: nat)
    requires Inv(roles, s) && Stalled(s) && i < |s.workers|
    ensures match s.workers[i]
            case Producing => true
            case Sending(c, _, phase) => phase.AwaitFree? && s.channels[c].free == 0
            case Receiving(c, phase) => phase.AwaitAdded? && s.channels[c].added == 0
  {
    assert !Enabled(s, Advance(i));
    var w := s.workers[i];
    if !w.Producing? && s.channels[w.channel].access == 0 {
      forall x | x in s.workers
        ensures InSection(w.channel, x) == 0
      {
        var j :| 0 <= j < |s.workers| && s.workers[j] == x;
        assert !Enabled(s, Advance(j));
      }
      TotalConstant(InSection, w.channel, s.workers, 0);
      assert false;
    }
  }

  lemma StalledPermits(roles: seq<Role>, s: State, c: nat)
    requires Inv(roles, s) && Stalled(s) && c < 2
    ensures s.channels[c].added == |s.channels[c].queue|
    ensures s.channels[c].free == |s.channels[c].ring.cells| - |s.channels[c].queue|
  {
    forall x | x in s.workers
      ensures AddedLag(c, x) == 0 && FreeLag(c, x) == 0
    {
      var j :| 0 <= j < |s.workers| && s.workers[j] == x;
      StalledWorker(roles, s, j);
    }
    TotalConstant(AddedLag, c, s.workers, 0);
    TotalConstant(FreeLag, c, s.workers, 0);
  }

  /** A stalled pipeline has delivered everything: both rings are empty and every worker is idle. */
  lemma StalledIsDrained(roles: seq<Role>, s: State)
    requires Inv(roles, s) && Staffed(roles) && Stalled(s)
    ensures s.channels[0].queue == [] && s.channels[1].queue == []
    ensures forall i | 0 <= i < |s.workers| :: s.workers[i] == InitialWorker(roles[i])
  {
    StalledPermits(roles, s, 0);
    StalledPermits(roles, s, 1);
    var third :| 0 <= third < |roles| && roles[third] == Third;
    StalledWorker(roles, s, third);
    var second :| 0 <= second < |roles| && roles[second] == Second;
    StalledWorker(roles, s, second);
    forall i | 0 <= i < |s.workers|
      ensures s.workers[i] == InitialWorker(roles[i])
    {
      StalledWorker(roles, s, i);
    }
  }

  /** Deadlock freedom: if no worker can move on, the pipeline is idle and a first worker can
      produce its next pin, whichever that is. */
  lemma NeverDeadlocked(roles: seq<Role>, capacity: nat, s: State)
    requires Reachable(roles, capacity, s)
    ensures |s.channels| == 2
    ensures (exists i: nat :: Enabled(s, Advance(i))) || (exists i: nat :: Enabled(s, Produce(i, 0)))
  {
    ReachableIsSound(roles, capacity, s, 0);
    if Stalled(s) {
      StalledIsDrained(roles, s);
      var first :| 0 <= first < |roles| && roles[first] == First;
      assert Enabled(s, Produce(first, 0));
    }
  }

  /** Once the pipeline stalls, the pins consumed are exactly the pins produced. */
  lemma DrainedDeliversEverything(roles: seq<Role>, capacity: nat, s: State)
    requires Reachable(roles, capacity, s) && |s.channels| == 2 && Stalled(s)
    ensures multiset(s.consumed) == multiset(s.produced)
  {
    ReachableIsSound(roles, capacity, s, 0);
    StalledIsDrained(roles, s);
    forall p: Pin
      ensures multiset(s.consumed)[p] == multiset(s.produced)[p]
    {
      ReachableIsSound(roles, capacity, s, p);
      TotalConstant(Carries, p, s.workers, 0);
    }
  }

  /** Steps a worker still has to take on behalf of the pin or permit it holds. */
  ghost function Work(k: (), w: Worker): int {
    match w
    case Producing => 0
    case Sending(c, _, phase) =>
      (match phase
       case AwaitFree => 10
       case SendAccess => 9
       case Write => 8
       case PostAdded => 7
       case SendRelease => 1) + (if c == 0 && !phase.SendRelease? then 10 else 0)
    case Receiving(c, phase) =>
      (match phase
       case AwaitAdded => 0
       case ReceiveAccess => 4
       case Read => 3
       case PostFree(_) => 2
       case ReceiveRelease(_) => 1) + (if c == 0 && !phase.AwaitAdded? then 10 else 0)
  }

  ghost function RemainingWork(s: State): int
    requires |s.channels| == 2
  {
    Total(Work, (), s.workers) + 15 * s.channels[0].added + 5 * s.channels[1].added
  }

  lemma WorkerStepWorks(w: Worker, ch: Channel)
    requires !w.Producing? && w.channel < 2 && ch.ring.InBounds()
    requires w.Sending? ==> (w.send.AwaitFree? ==> ch.free > 0) && (w.send.SendAccess? ==> ch.access > 0)
    requires w.Receiving? ==>
      (w.receive.AwaitAdded? ==> ch.added > 0) && (w.receive.ReceiveAccess? ==> ch.access > 0)
    ensures var (w', ch') := WorkerStep(w, ch);
            var value := if w.channel == 0 then 15 else 5;
            Work((), w') + value * ch'.added == Work((), w) + value * ch.added - 1
  {
  }

  /** Producing a straight pin creates 20 steps of work; every other step does one of them. */
  lemma StepWorks(s: State, a: Action)
    requires Shape(s) && Enabled(s, a)
    ensures |Apply(s, a).channels| == 2
    ensures RemainingWork(Apply(s, a)) == RemainingWork(s) +
            match a
            case Produce(_, pin) => if IsStraight(pin) then 20 else 0
            case Advance(_) => -1
  {
    match a {
      case Advance(i) =>
        var w := s.workers[i];
        var (w', ch') := WorkerStep(w, s.channels[w.channel]);
        TotalUpdate(Work, (), s.workers, i, w');
        WorkerStepWorks(w, s.channels[w.channel]);
      case Produce(i, pin) =>
        TotalUpdate(Work, (), s.workers, i, Sending(0, pin, AwaitFree));
    }
  }

  lemma MovingWorkerHasWork(s: State, i: nat)
    requires Shape(s) && Enabled(s, Advance(i))
    ensures RemainingWork(s) > 0
  {
    TotalMember(Work, (), s.workers, i);
  }

  lemma StalledHasNoWork(roles: seq<Role>, s: State)
    requires Inv(roles, s) && Staffed(roles) && Stalled(s)
    ensures RemainingWork(s) == 0
  {
    StalledIsDrained(roles, s);
    StalledPermits(roles, s, 0);
    StalledPermits(roles, s, 1);
    forall w | w in s.workers
      ensures Work((), w) == 0
    {
      var i :| 0 <= i < |s.workers| && s.workers[i] == w;
      assert w == InitialWorker(roles[i]);
    }
    TotalConstant(Work, (), s.workers, 0);
  }

  lemma NoWorkIffStalled(roles: seq<Role>, s: State)
    requires Inv(roles, s) && Staffed(roles)
    ensures RemainingWork(s) >= 0
    ensures Stalled(s) <==> RemainingWork(s) == 0
  {
    TotalAtLeast(Work, (), s.workers, 0);
    if Stalled(s) {
      StalledHasNoWork(roles, s);
    } else {
      var i: nat :| Enabled(s, Advance(i));
      MovingWorkerHasWork(s, i);
    }
  }

  ghost function Advances(acts: seq<Action>): nat {
    if acts == [] then 0 else (if acts[0].Advance? then 1 else 0) + Advances(acts[1..])
  }

  lemma {:induction false} RunWorks(s: State, acts: seq<Action>)
    requires Shape(s) && Executable(s, acts)
    ensures |After(s, acts).channels| == 2
    ensures Advances(acts) + RemainingWork(After(s, acts)) - 20 * |After(s, acts).produced|
            == RemainingWork(s) - 20 * |s.produced|
    decreases |acts|
  {
    if acts != [] {
      StepWorks(s, acts[0]);
      StepKeepsRoles(s, acts[0]);
      RunWorks(Apply(s, acts[0]), acts[1..]);
    }
  }

  /** Every run spends at most 20 steps on each pin it produces, so a pipeline whose first workers
      stop producing always stalls; it has then spent exactly 20 steps on each pin. */
  lemma EveryPinTakesTwentySteps(roles: seq<Role>, capacity: nat, acts: seq<Action>)
    requires capacity >= 1 && Staffed(roles)
    requires Shape(Initial(roles, capacity)) && Executable(Initial(roles, capacity), acts)
    ensures var t := After(Initial(roles, capacity), acts);
            && |t.channels| == 2
            && Advances(acts) <= 20 * |t.produced|
            && (Stalled(t) <==> Advances(acts) == 20 * |t.produced|)
  {
    var s := Initial(roles, capacity);
    var t := After(s, acts);
    InitialInv(roles, capacity, 0);
    RunKeepsInv(roles, s, acts, 0);
    TotalConstant(Work, (), s.workers, 0);
    RunWorks(s, acts);
    NoWorkIffStalled(roles, t);
  }
}
