/**
 The pairwise parallel reduction of hw9: `n` generators push their numbers, the main thread pops
 pairs, starts an adder for each pair, and reads the answer after joining the adders.

 One step of the machine is one lock operation, one semaphore operation or one access to the queue.
 */
module Reduction {
  import opened Ring
  import opened Sums

  type uint32 = x: nat | x < 0x1_0000_0000

  /** A generator or an adder. It holds `queue_lock_` while Writing, Advancing and Unlocking. */
  datatype Pusher =
    | Absent
    | Summing(first: uint32, second: uint32)
    | Locking(num: uint32)
    | Writing(num: uint32)
    | Advancing(num: uint32)
    | Unlocking
    | Posting
    | Finished

  /** The main thread: `StartNumGenThreads`, the loop of `AccumulateResults`, and the joins. */
  datatype MainThread =
    | Creating(i: nat)
    | FirstWait(iter: nat)
    | SecondWait(iter: nat)
    | FirstRead(iter: nat)
    | FirstSkip(iter: nat, first: uint32)
    | SecondRead(iter: nat, first: uint32)
    | SecondSkip(iter: nat, first: uint32, second: uint32)
    | Spawning(iter: nat, first: uint32, second: uint32)
    | JoiningAdder(i: nat)
    | ReadingFront
    | JoiningGenerator(i: nat, answer: uint32)
    | Returned(answer: uint32)

  /** Pushers 0..n-1 are the generators, n..2n-2 the adders. `owner` is the holder of the lock;
      `unread` records the numbers published and not yet skipped by the main thread. */
  datatype State = State(
    main: MainThread,
    pushers: seq<Pusher>,
    ring: Ring<uint32>,
    owner: int,
    semaphore: nat,
    unread: seq<uint32>)

  datatype Action = Main | Push(i: nat)

  /** The array queue_data_ starts zeroed, with both indices 0. */
  function Initial(n: nat, capacity: nat): State
    requires 2 <= n <= capacity
  {
    State(Creating(0), seq(2 * n - 1, _ => Absent), Ring(seq(capacity, _ => 0), 0, 0), -1, 0, [])
  }

  predicate Enabled(n: nat, s: State, a: Action)
  {
    match a
    case Push(i) =>
      && i < |s.pushers|
      && s.pushers[i] != Absent && s.pushers[i] != Finished
      && (s.pushers[i].Locking? ==> s.owner == -1)
    case Main =>
      match s.main
      case FirstWait(_) => s.semaphore > 0
      case SecondWait(_) => s.semaphore > 0
      case JoiningAdder(k) => n + k < |s.pushers| ==> s.pushers[n + k] == Finished
      case JoiningGenerator(k, _) => k < n && k < |s.pushers| ==> s.pushers[k] == Finished
      case Returned(_) => false
      case _ => true
  }

  /** The step of pusher `i`: the body of `Adder`, then the statements of `Push`. */
  function PusherStep(s: State, i: nat): State
    requires i < |s.pushers| && s.ring.InBounds()
  {
    match s.pushers[i]
    case Summing(a, b) => s.(pushers := s.pushers[i := Locking((a + b) % 0x1_0000_0000)])
    case Locking(num) => s.(pushers := s.pushers[i := Writing(num)], owner := i)
    case Writing(num) => s.(pushers := s.pushers[i := Advancing(num)], ring := s.ring.Store(num))
    case Advancing(num) =>
      s.(pushers := s.pushers[i := Unlocking],
         ring := s.ring.Advance(),
         unread := s.unread + [s.ring.cells[s.ring.write]])
    case Unlocking => s.(pushers := s.pushers[i := Posting], owner := -1)
    case Posting => s.(pushers := s.pushers[i := Finished], semaphore := s.semaphore + 1)
    case _ => s
  }

  /** The step of the main thread. */
  function MainStep(n: nat, s: State): State
    requires |s.pushers| == 2 * n - 1 && n >= 2 && s.ring.InBounds()
    requires Enabled(n, s, Main)
  {
    match s.main
    case Creating(i) =>
      if i < n then
        s.(main := Creating(i + 1), pushers := s.pushers[i := Locking((i + 1) % 0x1_0000_0000)])
      else
        s.(main := FirstWait(0))
    case FirstWait(k) => s.(main := SecondWait(k), semaphore := s.semaphore - 1)
    case SecondWait(k) => s.(main := FirstRead(k), semaphore := s.semaphore - 1)
    case FirstRead(k) => s.(main := FirstSkip(k, s.ring.cells[s.ring.read]))
    case FirstSkip(k, a) => Skipped(s).(main := SecondRead(k, a))
    case SecondRead(k, a) => s.(main := SecondSkip(k, a, s.ring.cells[s.ring.read]))
    case SecondSkip(k, a, b) => Skipped(s).(main := Spawning(k, a, b))
    case Spawning(k, a, b) =>
      s.(main := if k + 1 < n - 1 then FirstWait(k + 1) else JoiningAdder(0),
         pushers := if k < n - 1 then s.pushers[n + k := Summing(a, b)] else s.pushers)
    case JoiningAdder(k) => s.(main := if k < n - 1 then JoiningAdder(k + 1) else ReadingFront)
    case ReadingFront => s.(main := JoiningGenerator(0, s.ring.cells[s.ring.read]))
    case JoiningGenerator(k, v) =>
      s.(main := if k < n then JoiningGenerator(k + 1, v) else Returned(v))
  }

  /** Advance read_index_, which retires the oldest unread entry. */
  function Skipped(s: State): State
    requires s.ring.InBounds()
  {
    s.(ring := s.ring.Drop(), unread := if s.unread == [] then [] else s.unread[1..])
  }

  ghost predicate Shape(n: nat, s: State) {
    2 <= n <= |s.ring.cells| && |s.pushers| == 2 * n - 1 && s.ring.InBounds()
  }

  function Apply(n: nat, s: State, a: Action): State
    requires Shape(n, s) && Enabled(n, s, a)
  {
    match a
    case Main => MainStep(n, s)
    case Push(i) => PusherStep(s, i)
  }

  lemma ApplyKeepsShape(n: nat, s: State, a: Action)
    requires Shape(n, s) && Enabled(n, s, a)
    ensures Shape(n, Apply(n, s, a))
  {
    WrapMod(s.ring.read + 1, |s.ring.cells|);
    WrapMod(s.ring.write + 1, |s.ring.cells|);
  }

  /** `acts` is an interleaving that every thread can follow from `s`. */
  ghost predicate Executable(n: nat, s: State, acts: seq<Action>)
    requires Shape(n, s)
    decreases |acts|
  {
    acts == [] ||
    (Enabled(n, s, acts[0]) &&
     (ApplyKeepsShape(n, s, acts[0]); Executable(n, Apply(n, s, acts[0]), acts[1..])))
  }

  ghost function After(n: nat, s: State, acts: seq<Action>): State
    requires Shape(n, s) && Executable(n, s, acts)
    decreases |acts|
  {
    if acts == [] then s
    else ApplyKeepsShape(n, s, acts[0]); After(n, Apply(n, s, acts[0]), acts[1..])
  }

  // --- the accounting -------------------------------------------------------------------------

  /** Has the thread published its number? */
  ghost function Wrote(k: (), p: Pusher): int {
    if p.Unlocking? || p.Posting? || p.Finished? then 1 else 0
  }

  ghost function Posted(k: (), p: Pusher): int {
    if p.Finished? then 1 else 0
  }

  /** The part of the sum a thread still carries. */
  ghost function Pending(k: (), p: Pusher): int {
    match p
    case Summing(a, b) => a + b
    case Locking(num) => num
    case Writing(num) => num
    case Advancing(num) => num
    case _ => 0
  }

  ghost function Value(k: (), x: uint32): int { x }

  ghost predicate InSection(p: Pusher) {
    p.Writing? || p.Advancing? || p.Unlocking?
  }

  /** How many threads the main thread has created, in index order. */
  ghost function Created(n: nat, m: MainThread): int {
    match m
    case Creating(i) => i
    case JoiningAdder(_) => 2 * n - 1
    case ReadingFront => 2 * n - 1
    case JoiningGenerator(_, _) => 2 * n - 1
    case Returned(_) => 2 * n - 1
    case _ => n + m.iter
  }

  /** How many posts the main thread has taken from the semaphore. */
  ghost function Taken(n: nat, m: MainThread): int {
    match m
    case Creating(_) => 0
    case FirstWait(k) => 2 * k
    case SecondWait(k) => 2 * k + 1
    case JoiningAdder(_) => 2 * n - 2
    case ReadingFront => 2 * n - 2
    case JoiningGenerator(_, _) => 2 * n - 2
    case Returned(_) => 2 * n - 2
    case _ => 2 * m.iter + 2
  }

  /** How many entries the main thread has skipped. */
  ghost function Dropped(n: nat, m: MainThread): int {
    match m
    case FirstRead(k) => 2 * k
    case FirstSkip(k, _) => 2 * k
    case SecondRead(k, _) => 2 * k + 1
    case SecondSkip(k, _, _) => 2 * k + 1
    case SecondWait(k) => 2 * k
    case _ => Taken(n, m)
  }

  ghost function Triangle(n: nat): nat {
    if n == 0 then 0 else Triangle(n - 1) + n
  }

  /** The part of the sum the main thread carries: numbers of generators it has yet to start, or
      the numbers it has popped. */
  ghost function Held(n: nat, m: MainThread): int {
    match m
    case Creating(i) => if i <= n then Triangle(n) - Triangle(i) else 0
    case SecondRead(_, a) => a
    case SecondSkip(_, a, _) => a
    case Spawning(_, a, b) => a + b
    case _ => 0
  }

  ghost function Carried(n: nat, s: State): int {
    Total(Pending, (), s.pushers) + Total(Value, (), s.unread) + Held(n, s.main)
  }

  ghost predicate MainInRange(n: nat, s: State)
    requires Shape(n, s)
  {
    match s.main
    case Creating(i) => i <= n
    case JoiningAdder(k) =>
      k <= n - 1 && AllFinished(s, 2 * n - 2) && forall j | n <= j < n + k :: s.pushers[j] == Finished
    case ReadingFront => AllFinished(s, 2 * n - 1)
    case JoiningGenerator(k, v) =>
      && k <= n && AllFinished(s, 2 * n - 1)
      && v % 0x1_0000_0000 == Triangle(n) % 0x1_0000_0000
    case Returned(v) => AllFinished(s, 2 * n - 1) && v % 0x1_0000_0000 == Triangle(n) % 0x1_0000_0000
    case FirstSkip(k, a) => k < n - 1 && s.unread != [] && a == s.unread[0]
    case SecondSkip(k, _, b) => k < n - 1 && s.unread != [] && b == s.unread[0]
    case _ => s.main.iter < n - 1
  }

  ghost predicate AllFinished(s: State, upTo: nat) {
    upTo <= |s.pushers| && forall i | 0 <= i < upTo :: s.pushers[i] == Finished
  }

  /** Threads exist in creation order, and the lock owner is the only thread in its section. */
  ghost predicate ThreadsInv(n: nat, s: State)
    requires Shape(n, s)
  {
    && (forall i | 0 <= i < |s.pushers| :: s.pushers[i] == Absent <==> i >= Created(n, s.main))
    && (forall i | 0 <= i < |s.pushers| :: InSection(s.pushers[i]) <==> s.owner == i)
    && -1 <= s.owner < |s.pushers|
    && (forall i | 0 <= i < |s.pushers| ::
          s.pushers[i].Advancing? ==> s.ring.cells[s.ring.write] == s.pushers[i].num)
  }

  /** The ring and the semaphore agree with what the threads have done. */
  ghost predicate CountsInv(n: nat, s: State) {
    && |s.unread| + Dropped(n, s.main) == Total(Wrote, (), s.pushers)
    && s.semaphore + Taken(n, s.main) == Total(Posted, (), s.pushers)
  }

  /** No part of the sum is ever lost. */
  ghost predicate SumInv(n: nat, s: State) {
    Carried(n, s) % 0x1_0000_0000 == Triangle(n) % 0x1_0000_0000
  }

  ghost predicate Inv(n: nat, s: State) {
    && Shape(n, s)
    && MainInRange(n, s)
    && ThreadsInv(n, s)
    && s.ring.Holds(s.unread)
    && CountsInv(n, s)
    && SumInv(n, s)
  }

  /** A created thread that has not published yet leaves the count of published numbers short. */
  lemma WroteBound(n: nat, s: State, i: nat)
    requires Shape(n, s) && MainInRange(n, s) && ThreadsInv(n, s) && CountsInv(n, s)
    requires i < Created(n, s.main) && Wrote((), s.pushers[i]) == 0
    ensures Total(Wrote, (), s.pushers) <= Created(n, s.main) - 1
  {
    var c := Created(n, s.main);
    var started, rest := s.pushers[..c], s.pushers[c..];
    assert s.pushers == started + rest;
    TotalConcat(Wrote, (), started, rest);
    TotalAtMost(Wrote, (), rest, 0);
    TotalUpdate(Wrote, (), started, i, Finished);
    TotalAtMost(Wrote, (), started[i := Finished], 1);
  }

  /** Fewer than n entries are unread whenever a thread is about to publish one. */
  lemma RoomToWrite(n: nat, s: State, i: nat)
    requires Inv(n, s) && i < |s.pushers|
    requires s.pushers[i] != Absent && Wrote((), s.pushers[i]) == 0
    ensures |s.unread| < n
  {
    WroteBound(n, s, i);
  }

  lemma UpdateTotals(ps: seq<Pusher>, i: nat, p: Pusher)
    requires i < |ps|
    ensures Total(Wrote, (), ps[i := p]) == Total(Wrote, (), ps) - Wrote((), ps[i]) + Wrote((), p)
    ensures Total(Posted, (), ps[i := p]) == Total(Posted, (), ps) - Posted((), ps[i]) + Posted((), p)
    ensures Total(Pending, (), ps[i := p]) == Total(Pending, (), ps) - Pending((), ps[i]) + Pending((), p)
  {
    TotalUpdate(Wrote, (), ps, i, p);
    TotalUpdate(Posted, (), ps, i, p);
    TotalUpdate(Pending, (), ps, i, p);
  }

  lemma PusherKeepsThreads(n: nat, s: State, i: nat)
    requires Shape(n, s) && ThreadsInv(n, s) && Enabled(n, s, Push(i))
    ensures Shape(n, PusherStep(s, i)) && ThreadsInv(n, PusherStep(s, i))
  {
    ApplyKeepsShape(n, s, Push(i));
  }

  lemma PusherKeepsRing(n: nat, s: State, i: nat)
    requires Inv(n, s) && Enabled(n, s, Push(i))
    ensures PusherStep(s, i).ring.Holds(PusherStep(s, i).unread)
  {
    if s.pushers[i].Writing? {
      RoomToWrite(n, s, i);
      s.ring.StoreHolds(s.unread, s.pushers[i].num);
    } else if s.pushers[i].Advancing? {
      RoomToWrite(n, s, i);
      s.ring.AdvanceHolds(s.unread);
    }
  }

  lemma PusherKeepsCounts(n: nat, s: State, i: nat)
    requires Shape(n, s) && CountsInv(n, s) && Enabled(n, s, Push(i))
    ensures CountsInv(n, PusherStep(s, i))
  {
    UpdateTotals(s.pushers, i, PusherStep(s, i).pushers[i]);
  }

  /** Reducing one term of a sum does not change the sum modulo 2^32. */
  lemma ReduceTerm(rest: int, x: int)
    ensures (rest + x % 0x1_0000_0000) % 0x1_0000_0000 == (rest + x) % 0x1_0000_0000
  {
    var q := x / 0x1_0000_0000;
    assert rest + x == rest + x % 0x1_0000_0000 + q * 0x1_0000_0000;
  }

  /** The sum an adder is about to wrap around. */
  ghost function Adding(p: Pusher): int {
    if p.Summing? then p.first + p.second else 0
  }

  /** Publishing moves a number from the pusher to the unread entries. */
  lemma PublishCarries(n: nat, s: State, i: nat)
    requires Shape(n, s) && i < |s.pushers| && s.pushers[i].Advancing?
    requires s.ring.cells[s.ring.write] == s.pushers[i].num
    ensures Carried(n, PusherStep(s, i)) == Carried(n, s)
  {
    var num := s.pushers[i].num;
    TotalUpdate(Pending, (), s.pushers, i, Unlocking);
    TotalConcat(Value, (), s.unread, [num]);
    assert Total(Value, (), [num]) == num;
  }

  /** A pusher hands on exactly what it carried, up to the wrap-around of one addition. */
  lemma PusherCarries(n: nat, s: State, i: nat)
    requires Shape(n, s) && Enabled(n, s, Push(i))
    requires s.pushers[i].Advancing? ==> s.ring.cells[s.ring.write] == s.pushers[i].num
    ensures var x := Adding(s.pushers[i]);
            Carried(n, PusherStep(s, i)) == Carried(n, s) - x + x % 0x1_0000_0000
  {
    var t := PusherStep(s, i);
    var x := Adding(s.pushers[i]);
    if s.pushers[i].Advancing? {
      PublishCarries(n, s, i);
    } else {
      TotalUpdate(Pending, (), s.pushers, i, t.pushers[i]);
      assert t.unread == s.unread && t.main == s.main;
      assert Pending((), t.pushers[i]) == Pending((), s.pushers[i]) - x + x % 0x1_0000_0000;
    }
  }

  lemma PusherKeepsSum(n: nat, s: State, i: nat)
    requires Shape(n, s) && SumInv(n, s) && Enabled(n, s, Push(i))
    requires s.pushers[i].Advancing? ==> s.ring.cells[s.ring.write] == s.pushers[i].num
    ensures SumInv(n, PusherStep(s, i))
  {
    PusherCarries(n, s, i);
    var x := Adding(s.pushers[i]);
    ReduceTerm(Carried(n, s) - x, x);
  }

  lemma PusherKeepsRange(n: nat, s: State, i: nat)
    requires Shape(n, s) && MainInRange(n, s) && Enabled(n, s, Push(i)) && Shape(n, PusherStep(s, i))
    ensures MainInRange(n, PusherStep(s, i))
  {
  }

  lemma PusherKeepsInv(n: nat, s: State, i: nat)
    requires Inv(n, s) && Enabled(n, s, Push(i))
    ensures Inv(n, PusherStep(s, i))
  {
    PusherKeepsThreads(n, s, i);
    PusherKeepsRange(n, s, i);
    PusherKeepsRing(n, s, i);
    PusherKeepsCounts(n, s, i);
    PusherKeepsSum(n, s, i);
  }

  /** While the main thread holds two posts, the entries it pays for are in the ring. */
  lemma PairIsWritten(n: nat, s: State)
    requires Shape(n, s) && CountsInv(n, s)
    ensures |s.unread| >= Taken(n, s.main) - Dropped(n, s.main) + s.semaphore
  {
    TotalMonotone(Posted, Wrote, (), s.pushers);
  }

  /** The last pair is paid for only after every earlier thread has posted. */
  lemma LastPairIsTight(n: nat, s: State)
    requires Shape(n, s) && MainInRange(n, s) && ThreadsInv(n, s) && CountsInv(n, s)
    requires s.main.Spawning? && s.main.iter == n - 2
    ensures AllFinished(s, 2 * n - 2)
  {
    var c := 2 * n - 2;
    var started, rest := s.pushers[..c], s.pushers[c..];
    assert s.pushers == started + rest;
    TotalConcat(Posted, (), started, rest);
    TotalAtMost(Posted, (), rest, 0);
    forall i | 0 <= i < c
      ensures s.pushers[i] == Finished
    {
      TotalFull(Posted, (), started, i);
    }
  }

  /** Once every thread has finished, the one unread entry is the whole sum. */
  lemma LastEntry(n: nat, s: State)
    requires Inv(n, s) && AllFinished(s, 2 * n - 1) && Dropped(n, s.main) == 2 * n - 2
    requires Held(n, s.main) == 0
    ensures |s.unread| == 1 && s.unread[0] == s.ring.cells[s.ring.read]
    ensures s.unread[0] == Triangle(n) % 0x1_0000_0000
  {
    TotalConstant(Wrote, (), s.pushers, 1);
    TotalConstant(Pending, (), s.pushers, 0);
    s.ring.DropHolds(s.unread);
    assert s.unread == [s.unread[0]];
    assert Total(Value, (), [s.unread[0]]) == s.unread[0];
  }

  lemma ReadingKeepsRange(n: nat, s: State)
    requires Shape(n, s) && MainInRange(n, s) && CountsInv(n, s) && s.ring.Holds(s.unread)
    requires s.main.FirstRead? || s.main.SecondRead?
    ensures Shape(n, MainStep(n, s)) && MainInRange(n, MainStep(n, s))
  {
    PairIsWritten(n, s);
    s.ring.DropHolds(s.unread);
  }

  lemma SpawningKeepsRange(n: nat, s: State)
    requires Shape(n, s) && MainInRange(n, s) && ThreadsInv(n, s) && CountsInv(n, s) && s.main.Spawning?
    ensures Shape(n, MainStep(n, s)) && MainInRange(n, MainStep(n, s))
  {
    if s.main.iter == n - 2 {
      LastPairIsTight(n, s);
    }
  }

  lemma FrontKeepsRange(n: nat, s: State)
    requires Inv(n, s) && s.main.ReadingFront?
    ensures Shape(n, MainStep(n, s)) && MainInRange(n, MainStep(n, s))
  {
    LastEntry(n, s);
    assert MainStep(n, s) == s.(main := JoiningGenerator(0, s.unread[0]));
  }

  lemma OtherKeepsRange(n: nat, s: State)
    requires Shape(n, s) && MainInRange(n, s) && Enabled(n, s, Main)
    requires !s.main.FirstRead? && !s.main.SecondRead? && !s.main.Spawning? && !s.main.ReadingFront?
    ensures Shape(n, MainStep(n, s)) && MainInRange(n, MainStep(n, s))
  {
    ApplyKeepsShape(n, s, Main);
  }

  lemma MainKeepsRange(n: nat, s: State)
    requires Inv(n, s) && Enabled(n, s, Main)
    ensures Shape(n, MainStep(n, s)) && MainInRange(n, MainStep(n, s))
  {
    if s.main.FirstRead? || s.main.SecondRead? {
      ReadingKeepsRange(n, s);
    } else if s.main.Spawning? {
      SpawningKeepsRange(n, s);
    } else if s.main.ReadingFront? {
      FrontKeepsRange(n, s);
    } else {
      OtherKeepsRange(n, s);
    }
  }

  /** Creating the next thread in order keeps ThreadsInv. */
  lemma CreatingKeepsThreads(n: nat, s: State, t: State, i: nat)
    requires Shape(n, s) && Shape(n, t) && ThreadsInv(n, s) && i == Created(n, s.main) < |s.pushers|
    requires Created(n, t.main) == i + 1 && t.owner == s.owner && t.ring == s.ring
    requires t.pushers == s.pushers[i := t.pushers[i]] && (t.pushers[i].Locking? || t.pushers[i].Summing?)
    ensures ThreadsInv(n, t)
  {
    assert s.pushers[i] == Absent;
  }

  lemma MainKeepsThreads(n: nat, s: State)
    requires Shape(n, s) && MainInRange(n, s) && ThreadsInv(n, s) && Enabled(n, s, Main)
    ensures Shape(n, MainStep(n, s)) && ThreadsInv(n, MainStep(n, s))
  {
    var t := MainStep(n, s);
    ApplyKeepsShape(n, s, Main);
    match s.main {
      case Creating(i) => if i < n { CreatingKeepsThreads(n, s, t, i); }
      case Spawning(k, _, _) => CreatingKeepsThreads(n, s, t, n + k);
      case _ =>
        assert t.pushers == s.pushers && t.owner == s.owner && t.ring.cells == s.ring.cells;
        assert t.ring.write == s.ring.write && Created(n, t.main) == Created(n, s.main);
    }
  }

  lemma MainKeepsRing(n: nat, s: State)
    requires Inv(n, s) && Enabled(n, s, Main)
    ensures MainStep(n, s).ring.Holds(MainStep(n, s).unread)
  {
    if s.main.FirstSkip? || s.main.SecondSkip? {
      s.ring.DropHolds(s.unread);
    }
  }

  /** What the main thread hands to a thread it creates, before the conversion to uint32_t. */
  ghost function HandedOut(n: nat, m: MainThread): int {
    match m
    case Creating(i) => if i < n then i + 1 else 0
    case Spawning(_, a, b) => a + b
    case _ => 0
  }

  /** What the main thread does to the totals over the pushers. */
  lemma MainUpdates(n: nat, s: State)
    requires Shape(n, s) && MainInRange(n, s) && ThreadsInv(n, s) && Enabled(n, s, Main)
    ensures var t := MainStep(n, s);
            && Total(Wrote, (), t.pushers) == Total(Wrote, (), s.pushers)
            && Total(Posted, (), t.pushers) == Total(Posted, (), s.pushers)
            && Total(Pending, (), t.pushers) == Total(Pending, (), s.pushers) +
               if s.main.Creating? then HandedOut(n, s.main) % 0x1_0000_0000 else HandedOut(n, s.main)
  {
    match s.main {
      case Creating(i) => if i < n { UpdateTotals(s.pushers, i, Locking((i + 1) % 0x1_0000_0000)); }
      case Spawning(k, a, b) => UpdateTotals(s.pushers, n + k, Summing(a, b));
      case _ =>
    }
  }

  lemma MainKeepsCounts(n: nat, s: State)
    requires Shape(n, s) && MainInRange(n, s) && ThreadsInv(n, s) && CountsInv(n, s) && Enabled(n, s, Main)
    requires s.main.FirstSkip? || s.main.SecondSkip? ==> s.unread != []
    ensures CountsInv(n, MainStep(n, s))
  {
    MainUpdates(n, s);
  }

  /** The main thread loses nothing either: what it skips it holds, what it holds it hands out. */
  lemma MainCarries(n: nat, s: State)
    requires Shape(n, s) && MainInRange(n, s) && ThreadsInv(n, s) && Enabled(n, s, Main)
    ensures var x := if s.main.Creating? then HandedOut(n, s.main) else 0;
            Carried(n, MainStep(n, s)) == Carried(n, s) - x + x % 0x1_0000_0000
  {
    MainUpdates(n, s);
  }

  lemma MainKeepsSum(n: nat, s: State)
    requires Shape(n, s) && MainInRange(n, s) && ThreadsInv(n, s) && SumInv(n, s) && Enabled(n, s, Main)
    ensures SumInv(n, MainStep(n, s))
  {
    MainCarries(n, s);
    var x := if s.main.Creating? then HandedOut(n, s.main) else 0;
    ReduceTerm(Carried(n, s) - x, x);
  }

  lemma MainKeepsInv(n: nat, s: State)
    requires Inv(n, s) && Enabled(n, s, Main)
    ensures Inv(n, MainStep(n, s))
  {
    MainKeepsRange(n, s);
    MainKeepsThreads(n, s);
    MainKeepsRing(n, s);
    MainKeepsCounts(n, s);
    MainKeepsSum(n, s);
  }

  lemma InitialInv(n: nat, capacity: nat)
    requires 2 <= n <= capacity
    ensures Inv(n, Initial(n, capacity))
  {
    var s := Initial(n, capacity);
    TotalConstant(Wrote, (), s.pushers, 0);
    TotalConstant(Posted, (), s.pushers, 0);
    TotalConstant(Pending, (), s.pushers, 0);
    WrapMod(0, capacity);
  }

  lemma {:induction false} ReachableInv(n: nat, s: State, acts: seq<Action>)
    requires Inv(n, s) && Executable(n, s, acts)
    ensures Inv(n, After(n, s, acts))
    decreases |acts|
  {
    if acts != [] {
      match acts[0] {
        case Main => MainKeepsInv(n, s);
        case Push(i) => PusherKeepsInv(n, s, i);
      }
      ReachableInv(n, Apply(n, s, acts[0]), acts[1..]);
    }
  }

  // --- what the reduction promises ------------------------------------------------------------

  ghost predicate Reachable(n: nat, capacity: nat, s: State)
  {
    2 <= n <= capacity &&
    exists acts :: Executable(n, Initial(n, capacity), acts) && s == After(n, Initial(n, capacity), acts)
  }

  lemma ReachableIsSound(n: nat, capacity: nat, s: State)
    requires Reachable(n, capacity, s)
    ensures Inv(n, s)
  {
    var acts :| Executable(n, Initial(n, capacity), acts) && s == After(n, Initial(n, capacity), acts);
    InitialInv(n, capacity);
    ReachableInv(n, Initial(n, capacity), acts);
  }

  /** At most n entries are ever unread, so the 64 cells suffice for 20 generators. */
  lemma NeverOverfull(n: nat, capacity: nat, s: State)
    requires Reachable(n, capacity, s)
    ensures |s.unread| <= n
  {
    ReachableIsSound(n, capacity, s);
    var c := Created(n, s.main);
    var started, rest := s.pushers[..c], s.pushers[c..];
    assert s.pushers == started + rest;
    TotalConcat(Wrote, (), started, rest);
    TotalAtMost(Wrote, (), started, 1);
    TotalAtMost(Wrote, (), rest, 0);
  }

  /** The reads of `PopPair` take no lock, yet they find the oldest published number and never the
      cell a pusher is about to write. */
  lemma UnlockedReadsAreSafe(n: nat, capacity: nat, s: State, i: nat)
    requires Reachable(n, capacity, s)
    requires s.main.FirstRead? || s.main.SecondRead?
    ensures s.ring.InBounds() && s.unread != [] && s.ring.cells[s.ring.read] == s.unread[0]
    ensures i < |s.pushers| && (s.pushers[i].Writing? || s.pushers[i].Advancing?) ==>
            s.ring.read != s.ring.write
  {
    ReachableIsSound(n, capacity, s);
    PairIsWritten(n, s);
    s.ring.DropHolds(s.unread);
    if i < |s.pushers| && (s.pushers[i].Writing? || s.pushers[i].Advancing?) {
      RoomToWrite(n, s, i);
      s.ring.IndicesDiffer(s.unread);
    }
  }

  /** A created thread that has not finished can move, or the lock owner can. */
  lemma UnfinishedCanMove(n: nat, s: State, i: nat)
    requires Shape(n, s) && MainInRange(n, s) && ThreadsInv(n, s)
    requires i < Created(n, s.main) && s.pushers[i] != Finished
    ensures exists j: nat :: Enabled(n, s, Push(j))
  {
    if s.pushers[i].Locking? && s.owner != -1 {
      assert InSection(s.pushers[s.owner]);
      assert Enabled(n, s, Push(s.owner));
    } else {
      assert Enabled(n, s, Push(i));
    }
  }

  /** Whenever the main thread is blocked, some pusher has not finished and some pusher can move. */
  lemma NeverDeadlocked(n: nat, capacity: nat, s: State)
    requires Reachable(n, capacity, s) && !s.main.Returned? && !Enabled(n, s, Main)
    ensures exists j: nat :: Enabled(n, s, Push(j))
  {
    ReachableIsSound(n, capacity, s);
    var c := Created(n, s.main);
    if i :| 0 <= i < c && s.pushers[i] != Finished {
      UnfinishedCanMove(n, s, i);
    } else {
      var started, rest := s.pushers[..c], s.pushers[c..];
      assert s.pushers == started + rest;
      TotalConcat(Posted, (), started, rest);
      TotalConstant(Posted, (), started, 1);
      TotalConstant(Posted, (), rest, 0);
      assert false;
    }
  }

  ghost function Weight(k: (), p: Pusher): int {
    match p
    case Absent => 7
    case Summing(_, _) => 6
    case Locking(_) => 5
    case Writing(_) => 4
    case Advancing(_) => 3
    case Unlocking => 2
    case Posting => 1
    case Finished => 0
  }

  /** Steps the main thread has left. */
  ghost function MainSteps(n: nat, m: MainThread): int {
    match m
    case Creating(i) => 9 * n + 4 + (n - i)
    case FirstWait(k) => 2 * n + 4 + 7 * (n - 1 - k)
    case SecondWait(k) => 2 * n + 3 + 7 * (n - 1 - k)
    case FirstRead(k) => 2 * n + 2 + 7 * (n - 1 - k)
    case FirstSkip(k, _) => 2 * n + 1 + 7 * (n - 1 - k)
    case SecondRead(k, _) => 2 * n + 7 * (n - 1 - k)
    case SecondSkip(k, _, _) => 2 * n - 1 + 7 * (n - 1 - k)
    case Spawning(k, _, _) => 2 * n - 2 + 7 * (n - 1 - k)
    case JoiningAdder(k) => 2 * n + 2 - k
    case ReadingFront => n + 2
    case JoiningGenerator(k, _) => n + 1 - k
    case Returned(_) => 0
  }

  ghost function Measure(n: nat, s: State): int {
    Total(Weight, (), s.pushers) + MainSteps(n, s.main)
  }

  lemma PusherDecreases(n: nat, s: State, i: nat)
    requires Shape(n, s) && Enabled(n, s, Push(i))
    ensures Measure(n, PusherStep(s, i)) < Measure(n, s)
  {
    TotalUpdate(Weight, (), s.pushers, i, PusherStep(s, i).pushers[i]);
  }

  /** Starting a thread costs the main thread more than the thread's own steps. */
  lemma StartingDecreases(n: nat, s: State)
    requires Shape(n, s) && MainInRange(n, s) && Enabled(n, s, Main) && (s.main.Creating? || s.main.Spawning?)
    requires forall i | 0 <= i < |s.pushers| :: s.pushers[i] == Absent <==> i >= Created(n, s.main)
    ensures Measure(n, MainStep(n, s)) < Measure(n, s)
  {
    var t := MainStep(n, s);
    match s.main {
      case Creating(i) => if i < n { TotalUpdate(Weight, (), s.pushers, i, t.pushers[i]); }
      case Spawning(k, _, _) => TotalUpdate(Weight, (), s.pushers, n + k, t.pushers[n + k]);
    }
  }

  lemma MainDecreases(n: nat, s: State)
    requires Shape(n, s) && MainInRange(n, s) && Enabled(n, s, Main)
    requires forall i | 0 <= i < |s.pushers| :: s.pushers[i] == Absent <==> i >= Created(n, s.main)
    ensures Measure(n, MainStep(n, s)) < Measure(n, s)
  {
    if s.main.Creating? || s.main.Spawning? {
      StartingDecreases(n, s);
    }
  }

  lemma {:induction false} RunsAreShort(n: nat, s: State, acts: seq<Action>)
    requires Inv(n, s) && Executable(n, s, acts)
    ensures |acts| + Measure(n, After(n, s, acts)) <= Measure(n, s)
    decreases |acts|
  {
    if acts != [] {
      match acts[0] {
        case Main => MainDecreases(n, s);
        case Push(i) => PusherDecreases(n, s, i);
      }
      ReachableInv(n, s, acts[..1]);
      assert After(n, s, acts[..1]) == Apply(n, s, acts[0]);
      RunsAreShort(n, Apply(n, s, acts[0]), acts[1..]);
    }
  }

  lemma InitialMeasure(n: nat, capacity: nat)
    requires 2 <= n <= capacity
    ensures Measure(n, Initial(n, capacity)) <= 24 * n
  {
    TotalConstant(Weight, (), Initial(n, capacity).pushers, 7);
  }

  lemma MeasureIsNatural(n: nat, s: State)
    requires Shape(n, s) && MainInRange(n, s)
    ensures Measure(n, s) >= 0
  {
    TotalAtLeast(Weight, (), s.pushers, 0);
  }

  /** No run has more than 24n steps. */
  lemma EveryRunEnds(n: nat, capacity: nat, acts: seq<Action>)
    requires 2 <= n <= capacity && Executable(n, Initial(n, capacity), acts)
    ensures |acts| <= 24 * n
  {
    var s := Initial(n, capacity);
    InitialInv(n, capacity);
    RunsAreShort(n, s, acts);
    ReachableInv(n, s, acts);
    InitialMeasure(n, capacity);
    MeasureIsNatural(n, After(n, s, acts));
  }

  /** When `Front()` is read, exactly one entry is unread and it is 1 + ... + n modulo 2^32. */
  lemma FrontIsTheSum(n: nat, capacity: nat, s: State)
    requires Reachable(n, capacity, s) && s.main.ReadingFront?
    ensures |s.unread| == 1 && s.ring.InBounds()
    ensures s.ring.cells[s.ring.read] == s.unread[0] == (n * (n + 1) / 2) % 0x1_0000_0000
  {
    ReachableIsSound(n, capacity, s);
    LastEntry(n, s);
    TriangleClosed(n);
  }

  /** A run that cannot be continued has returned the sum: the reduction is totally correct. */
  lemma MaximalRunsReturnTheSum(n: nat, capacity: nat, s: State)
    requires Reachable(n, capacity, s) && forall a :: !Enabled(n, s, a)
    ensures s.main.Returned? && s.main.answer == (n * (n + 1) / 2) % 0x1_0000_0000
  {
    assert !Enabled(n, s, Main);
    ReachableIsSound(n, capacity, s);
    if !s.main.Returned? {
      NeverDeadlocked(n, capacity, s);
    }
    TriangleClosed(n);
  }

  /** With the constants of the program, 20 generators and 64 cells, the answer is 210. */
  lemma TwentyGeneratorsReturn210(s: State)
    requires Reachable(20, 64, s) && forall a :: !Enabled(20, s, a)
    ensures s.main == Returned(210)
  {
    MaximalRunsReturnTheSum(20, 64, s);
  }

  lemma {:induction false} TriangleClosed(n: nat)
    ensures Triangle(n) == n * (n + 1) / 2
  {
    if n > 0 {
      TriangleClosed(n - 1);
    }
  }
}
