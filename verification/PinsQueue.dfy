/** The pin queue of os_ihw3/mark-4-5: a ring of a fixed size with an explicit count. */
module PinsQueue {
  import opened Ring

  type Pin = int

  class PinsQueue {
    const pins: array<Pin>
    var readPos: nat
    var writePos: nat
    var queueSize: nat
    ghost var contents: seq<Pin>

    ghost predicate Valid()
      reads this, pins
    {
      Ring(pins[..], readPos, writePos).Holds(contents) && queueSize == |contents|
    }

    /** Zeroed memory. */
    constructor (size: nat)
      requires size > 0
      ensures Valid() && fresh(pins) && pins.Length == size && contents == []
    {
      pins := new Pin[size](_ => 0);
      readPos, writePos, queueSize := 0, 0, 0;
      contents := [];
      new;
      WrapMod(0, size);
    }

    predicate IsEmpty()
      reads this
    {
      queueSize == 0
    }

    predicate IsFull()
      reads this
    {
      queueSize == pins.Length
    }

    /** Refuses exactly when the queue is full; else the pin becomes the newest. */
    method TryPut(pin: Pin) returns (ok: bool)
      requires Valid()
      modifies this, pins
      ensures Valid()
      ensures ok <==> old(|contents|) < pins.Length
      ensures contents == if ok then old(contents) + [pin] else old(contents)
    {
      if IsFull() {
        return false;
      }
      ghost var r := Ring(pins[..], readPos, writePos);
      r.PutHolds(contents, pin);
      assert writePos < pins.Length;
      pins[writePos] := pin;
      assert pins[..] == r.cells[r.write := pin];
      writePos := (writePos + 1) % pins.Length;
      queueSize := queueSize + 1;
      contents := contents + [pin];
      ok := true;
    }

    /** Refuses exactly when the queue is empty; else the oldest pin leaves it. */
    method TryPop() returns (ok: bool, pin: Pin)
      requires Valid()
      modifies this
      ensures Valid()
      ensures ok <==> old(contents) != []
      ensures if ok then [pin] + contents == old(contents) else contents == old(contents)
    {
      pin := 0;
      if IsEmpty() {
        return false, pin;
      }
      Ring(pins[..], readPos, writePos).DropHolds(contents);
      assert readPos < pins.Length;
      pin := pins[readPos];
      readPos := (readPos + 1) % pins.Length;
      queueSize := queueSize - 1;
      contents := contents[1..];
      ok := true;
    }
  }
}
