/** `CyclicQueue` of hw9 as its methods update it in place. */
module CyclicQueue {
  import opened Ring
  import opened Reduction

  const MAX_SIZE: nat := 64

  class CyclicQueue {
    const queueData: array<uint32>
    var readIndex: nat
    var writeIndex: nat
    var readSemaphore: nat

    ghost function View(): Ring<uint32>
      reads this, queueData
    {
      Ring(queueData[..], readIndex, writeIndex)
    }

    ghost predicate Valid()
      reads this, queueData
    {
      queueData.Length == MAX_SIZE && View().InBounds()
    }

    constructor ()
      ensures Valid() && View().Holds([]) && readSemaphore == 0 && fresh(queueData)
    {
      queueData := new uint32[MAX_SIZE](_ => 0);
      readIndex, writeIndex, readSemaphore := 0, 0, 0;
      new;
      WrapMod(0, MAX_SIZE);
    }

    /** `Push` checks nothing: it appends to whatever queue the ring holds, if there is a free cell. */
    method Push(num: uint32)
      requires Valid()
      modifies this, queueData
      ensures Valid() && readSemaphore == old(readSemaphore) + 1
      ensures View() == old(View()).Put(num)
      ensures forall q | old(View()).Holds(q) && |q| < MAX_SIZE :: View().Holds(q + [num])
    {
      forall q | View().Holds(q) && |q| < MAX_SIZE
        ensures View().Put(num).Holds(q + [num])
      {
        View().PutHolds(q, num);
      }
      queueData[writeIndex] := num;
      writeIndex := (writeIndex + 1) % MAX_SIZE;
      readSemaphore := readSemaphore + 1;
      assert View() == old(View().Put(num));
    }

    /** `PopPair` returns after taking two posts; it hands out the two oldest entries in order. */
    method PopPair() returns (first: uint32, second: uint32)
      requires Valid() && readSemaphore >= 2
      modifies this
      ensures Valid() && readSemaphore == old(readSemaphore) - 2
      ensures forall q | old(View()).Holds(q) && |q| >= 2 ::
                first == q[0] && second == q[1] && View().Holds(q[2..])
    {
      forall q | View().Holds(q) && |q| >= 2
        ensures var r := View();
                && r.cells[r.read] == q[0] && r.Drop().cells[r.Drop().read] == q[1]
                && r.Drop().Drop().Holds(q[2..])
      {
        View().DropHolds(q);
        View().Drop().DropHolds(q[1..]);
        assert q[1..][1..] == q[2..];
      }
      WrapMod(readIndex + 1, MAX_SIZE);
      readSemaphore := readSemaphore - 1;
      readSemaphore := readSemaphore - 1;
      first := queueData[readIndex];
      readIndex := (readIndex + 1) % MAX_SIZE;
      second := queueData[readIndex];
      readIndex := (readIndex + 1) % MAX_SIZE;
      assert View() == old(View()).Drop().Drop();
    }

    /** The oldest entry, left in the queue. */
    method Front() returns (num: uint32)
      requires Valid()
      ensures forall q | View().Holds(q) && q != [] :: num == q[0]
    {
      forall q | View().Holds(q) && q != []
        ensures View().cells[View().read] == q[0]
      {
        View().DropHolds(q);
      }
      num := queueData[readIndex];
    }

    /** The newest entry, left in the queue. */
    method Back() returns (num: uint32)
      requires Valid()
      ensures forall q | View().Holds(q) && q != [] :: num == q[|q| - 1]
    {
      forall q | View().Holds(q) && q != []
        ensures View().cells[(View().write + MAX_SIZE - 1) % MAX_SIZE] == q[|q| - 1]
      {
        WrapMod(readIndex + |q|, MAX_SIZE);
        WrapMod(readIndex + |q| - 1, MAX_SIZE);
        WrapMod(writeIndex + MAX_SIZE - 1, MAX_SIZE);
      }
      num := queueData[(writeIndex + MAX_SIZE - 1) % MAX_SIZE];
    }
  }
}
