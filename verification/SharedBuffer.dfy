/** The shared memory of os_hw8 as its writers and readers update it. */
module SharedBuffer {
  import opened Ring
  import opened Factorial
  import opened SplitMutexRing

  /** The section of a reader, seen on the ring: the oldest number leaves it. */
  lemma ReadSection(r: Ring<int>, q: seq<int>)
    requires RingHolds(r, false, false, q) && q != []
    ensures r.cells[r.read] == q[0]
    ensures Clear(r).InBounds() && RingHolds(Clear(r).Drop(), false, false, q[1..])
  {
    r.DropHolds(q);
    ClearContents(r, false, q);
    DropContents(Clear(r), false, q);
  }

  /** In the range of the numbers written, the factorial never leaves 32 bits. */
  method FactorialInRange(v: int) returns (f: int)
    requires InRange(v)
    ensures f == Factorial.Factorial(v) <= 3628800
  {
    OnlySmallFactorialsFit(v);
    var p := FactorialOfInt(v as int32);
    f := p as int;
    FactorialGrows(v, 10);
    assert Factorial.Factorial(10) == 3628800;
    assert v == 0 ==> Factorial.Factorial(v) == 1;
  }

  class SharedBuffer {
    const store: array<int>
    var writeIndex: nat
    var readIndex: nat
    ghost var queue: seq<int>

    ghost function View(): Ring<int>
      reads this, store
    {
      Ring(store[..], readIndex, writeIndex)
    }

    /** No section is under way: the ring holds the queue, and all other cells are empty. */
    ghost predicate Valid()
      reads this, store
    {
      && RingHolds(View(), false, false, queue)
      && forall v | v in queue :: InRange(v)
    }

    /** The first writer clears the memory and marks every cell as empty. */
    constructor (size: nat)
      requires size > 0
      ensures Valid() && store.Length == size && queue == [] && fresh(store)
      ensures View() == Initial(size, 0, 0).ring
    {
      store := new int[size](_ => 0);
      writeIndex, readIndex := 0, 0;
      queue := [];
      new;
      var i := 0;
      while i < size
        modifies store
        invariant 0 <= i <= size && writeIndex == 0 && readIndex == 0 && queue == []
        invariant forall k | 0 <= k < i :: store[k] == -1
      {
        store[i] := -1;
        i := i + 1;
      }
      assert store[..] == Initial(size, 0, 0).ring.cells;
      WrapMod(0, size);
    }

    /** The section of a writer that has an `empty` permit. */
    method Write(generated: int)
      requires Valid() && |queue| < store.Length && InRange(generated)
      modifies this, store
      ensures Valid() && queue == old(queue) + [generated]
      ensures View() == old(View()).Put(generated)
      ensures old(store[writeIndex]) == -1
    {
      ghost var r := View();
      StoreContents(r, false, queue, generated);
      AdvanceContents(r.Store(generated), false, queue);
      store[writeIndex] := generated;
      assert View() == r.Store(generated);
      writeIndex := (writeIndex + 1) % store.Length;
      queue := queue + [generated];
    }

    /** The section of a reader that has a `full` permit: the oldest number and its factorial. */
    method Read() returns (result: int, f: int)
      requires Valid() && queue != []
      modifies this, store
      ensures Valid() && [result] + queue == old(queue)
      ensures InRange(result) && f == Factorial.Factorial(result)
      ensures View() == Clear(old(View())).Drop()
    {
      ghost var r := View();
      ReadSection(r, queue);
      result := store[readIndex];
      store[readIndex] := -1;
      assert View() == Clear(r);
      readIndex := (readIndex + 1) % store.Length;
      queue := queue[1..];
      f := FactorialInRange(result);
    }
  }
}
