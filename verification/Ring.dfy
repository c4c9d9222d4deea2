/** The ring buffer all the queues of the repository are built on: cells, a read and a write index. */
module Ring {

  datatype Ring<T> = Ring(cells: seq<T>, read: nat, write: nat) {

    predicate InBounds() {
      read < |cells| && write < |cells|
    }

    /** Write into the cell at the write index. */
    function Store(x: T): Ring<T>
      requires InBounds()
    {
      this.(cells := cells[write := x])
    }

    /** Advance the write index. */
    function Advance(): Ring<T>
      requires InBounds()
    {
      this.(write := (write + 1) % |cells|)
    }

    /** Store at the write index and advance it. */
    function Put(x: T): Ring<T>
      requires InBounds()
    {
      Store(x).Advance()
    }

    /** Advance the read index. */
    function Drop(): Ring<T>
      requires InBounds()
    {
      this.(read := (read + 1) % |cells|)
    }

    /** The ring holds exactly the queue `q`, oldest entry first. */
    ghost predicate Holds(q: seq<T>) {
      && InBounds()
      && |q| <= |cells|
      && write == (read + |q|) % |cells|
      && forall i {:trigger q[i]} | 0 <= i < |q| :: cells[(read + i) % |cells|] == q[i]
    }

    /** While there is a free cell, writing at the write index touches no entry of the queue. */
    lemma StoreHolds(q: seq<T>, x: T)
      requires Holds(q) && |q| < |cells|
      ensures Store(x).Holds(q)
    {
      WrapMod(read + |q|, |cells|);
      forall i {:trigger q[i]} | 0 <= i < |q|
        ensures Store(x).cells[(read + i) % |cells|] == q[i]
      {
        WrapMod(read + i, |cells|);
      }
    }

    /** Advancing the write index publishes the cell it pointed at. */
    lemma AdvanceHolds(q: seq<T>)
      requires Holds(q) && |q| < |cells|
      ensures Advance().Holds(q + [cells[write]])
    {
      var r := Advance();
      WrapMod(write + 1, |cells|);
      WrapMod(read + |q|, |cells|);
      WrapMod(read + |q| + 1, |cells|);
    }

    lemma PutHolds(q: seq<T>, x: T)
      requires Holds(q) && |q| < |cells|
      ensures Put(x).Holds(q + [x])
    {
      StoreHolds(q, x);
      Store(x).AdvanceHolds(q);
    }

    lemma DropHolds(q: seq<T>)
      requires Holds(q) && q != []
      ensures cells[read] == q[0]
      ensures Drop().Holds(q[1..])
    {
      var r := Drop();
      WrapMod(read + 0, |cells|);
      WrapMod(read + 1, |cells|);
      WrapMod(read + |q|, |cells|);
      WrapMod(r.read + |q| - 1, |cells|);
      forall i | 0 <= i < |q| - 1
        ensures r.cells[(r.read + i) % |cells|] == q[1..][i]
      {
        WrapMod(read + (i + 1), |cells|);
        WrapMod(r.read + i, |cells|);
        assert q[i + 1] == q[1..][i];
      }
    }

    /** The two indices meet only when the ring is empty or full. */
    lemma IndicesDiffer(q: seq<T>)
      requires Holds(q) && 0 < |q| < |cells|
      ensures read != write
    {
      WrapMod(read + |q|, |cells|);
    }
  }

  /** Below twice the modulus, `%` is a conditional subtraction. */
  lemma WrapMod(i: nat, n: nat)
    requires i < 2 * n
    ensures i % n == if i < n then i else i - n
  {
    if i < n {
      assert i / n == 0;
    } else {
      assert i == 1 * n + (i - n);
      assert i / n == 1;
    }
  }
}
