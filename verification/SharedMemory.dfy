/** The shared memory of two pipeline stages as os_ihw2 updates it: `send_pin` and `wait_for_pin`. */
module SharedMemory {
  import opened Ring
  import opened Pipeline

  /** `send_pin` without interference: its five steps in a row. */
  function SendAlone(w: Worker, ch: Channel): (Worker, Channel)
    requires w.Sending? && w.send == AwaitFree
    requires ch.ring.InBounds() && ch.free > 0 && ch.access > 0
  {
    var (w1, c1) := SendStep(w, ch);
    var (w2, c2) := SendStep(w1, c1);
    var (w3, c3) := SendStep(w2, c2);
    WrapMod(ch.ring.write + 1, |ch.ring.cells|);
    var (w4, c4) := SendStep(w3, c3);
    SendStep(w4, c4)
  }

  /** `wait_for_pin` without interference. */
  function ReceiveAlone(w: Worker, ch: Channel): (Worker, Channel)
    requires w.Receiving? && w.receive == AwaitAdded
    requires ch.ring.InBounds() && ch.added > 0 && ch.access > 0
  {
    var (w1, c1) := ReceiveStep(w, ch);
    var (w2, c2) := ReceiveStep(w1, c1);
    var (w3, c3) := ReceiveStep(w2, c2);
    WrapMod(ch.ring.read + 1, |ch.ring.cells|);
    var (w4, c4) := ReceiveStep(w3, c3);
    ReceiveStep(w4, c4)
  }

  class SharedMemory {
    const buffer: array<Pin>
    var readIndex: nat
    var writeIndex: nat
    var freePinsSem: nat
    var addedPinsSem: nat
    var bufferAccessSem: nat
    ghost var queue: seq<Pin>
    ghost var sent: seq<Pin>
    ghost var received: seq<Pin>

    ghost function View(): Channel
      reads this, buffer
    {
      Channel(Ring(buffer[..], readIndex, writeIndex), freePinsSem, addedPinsSem, bufferAccessSem,
              queue, sent, received)
    }

    /** No operation is under way. */
    ghost predicate Valid()
      reads this, buffer
    {
      && View().ring.Holds(queue)
      && freePinsSem + |queue| == buffer.Length
      && addedPinsSem == |queue|
      && bufferAccessSem == 1
    }

    /** `init_shared_data`: zeroed memory, every permit free, the access semaphore up. */
    constructor (size: nat)
      requires size > 0
      ensures Valid() && View() == InitialChannel(size) && fresh(buffer)
    {
      buffer := new Pin[size](_ => 0);
      readIndex, writeIndex := 0, 0;
      freePinsSem, addedPinsSem, bufferAccessSem := size, 0, 1;
      queue, sent, received := [], [], [];
      new;
      WrapMod(0, size);
      assert buffer[..] == seq(size, _ => 0);
    }

    /** `send_pin`, from the moment its first wait does not block. */
    method SendPin(pin: Pin)
      requires Valid() && freePinsSem > 0
      modifies this, buffer
      ensures Valid() && queue == old(queue) + [pin]
      ensures forall c: nat :: View() == SendAlone(Sending(c, pin, AwaitFree), old(View())).1
    {
      View().ring.PutHolds(queue, pin);
      freePinsSem := freePinsSem - 1;
      bufferAccessSem := bufferAccessSem - 1;
      var index := writeIndex;
      buffer[index] := pin;
      writeIndex := (index + 1) % buffer.Length;
      queue, sent := queue + [pin], sent + [pin];
      addedPinsSem := addedPinsSem + 1;
      bufferAccessSem := bufferAccessSem + 1;
      assert View().ring == old(View().ring.Put(pin));
    }

    method WaitForPin() returns (pin: Pin)
      requires Valid() && addedPinsSem > 0
      modifies this
      ensures Valid() && [pin] + queue == old(queue)
      ensures forall c: nat :: View() == ReceiveAlone(Receiving(c, AwaitAdded), old(View())).1
    {
      View().ring.DropHolds(queue);
      addedPinsSem := addedPinsSem - 1;
      bufferAccessSem := bufferAccessSem - 1;
      var index := readIndex;
      pin := buffer[index];
      readIndex := (index + 1) % buffer.Length;
      queue, received := queue[1..], received + [pin];
      freePinsSem := freePinsSem + 1;
      bufferAccessSem := bufferAccessSem + 1;
      assert View().ring == old(View().ring.Drop());
    }
  }
}
