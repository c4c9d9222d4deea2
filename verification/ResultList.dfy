/** The doubly linked result list of version 1 of the encoder of ihw4, updated in place. */
module ResultList {
  import opened Chunks
  import opened Encoding
  import opened ChunkClaims
  import opened ListEncoder

  /** An encoded_result: its codes do not change once the node exists, its links do. */
  class Node {
    var next: Node?
    var prev: Node?
    const chunkNo: nat
    const encodedString: seq<code>

    constructor (chunkNo: nat, encodedString: seq<code>)
      ensures this.chunkNo == chunkNo && this.encodedString == encodedString
      ensures next == null && prev == null
    {
      this.chunkNo, this.encodedString := chunkNo, encodedString;
      next, prev := null, null;
    }
  }

  /** The cells of an encoded_result once `written` characters of the chunk are encoded. */
  ghost predicate EncodedSoFar(cells: seq<code>, chunk: seq<code>, written: nat) {
    && |cells| == 128 && written <= |chunk| <= 128
    && (forall i | 0 <= i < written :: cells[i] == EncodeChar(chunk[i]))
    && (forall i | written <= i < 128 :: cells[i] == NO_CODE)
  }

  lemma EncodedAll(cells: seq<code>, chunk: seq<code>)
    requires EncodedSoFar(cells, chunk, |chunk|)
    ensures cells == Padded(Encode(chunk))
  {
    forall i | 0 <= i < |chunk|
      ensures cells[i] == Encode(chunk)[i]
    {
      EncodeAt(chunk, i);
    }
  }

  /** The next character is encoded into the next cell. */
  lemma EncodedOneMore(cells: seq<code>, chunk: seq<code>, written: nat)
    requires EncodedSoFar(cells, chunk, written) && written < |chunk|
    ensures EncodedSoFar(cells[written := EncodeChar(chunk[written])], chunk, written + 1)
  {
  }

  /** The C string in memory: character `i` of chunk `k`, or the terminating zero behind it. */
  lemma CharacterOfChunk(memory: seq<code>, text: seq<code>, k: nat, i: nat)
    requires memory == text + [0] && 0 !in text
    requires k < ChunkCount(|text|) && i <= |ChunkText(text, k)| && i < 128
    ensures k * 128 + i < |memory|
    ensures memory[k * 128 + i] != 0 <==> i < |ChunkText(text, k)|
    ensures i < |ChunkText(text, k)| ==> memory[k * 128 + i] == ChunkText(text, k)[i]
  {
    ChunkBounds(|text|, k);
    if k * 128 + i < |text| {
      assert memory[k * 128 + i] == text[k * 128 + i];
    }
  }

  /** `new_result_node` and the loop of `encoder` that fills the zeroed cells: it stops after 128
      characters or at the terminating zero of the C string held by `memory`. */
  method EncodeChunk(memory: array<code>, chunkNo: nat, ghost text: seq<code>)
    returns (result: Node, encodedSize: nat)
    requires memory[..] == text + [0] && 0 !in text
    requires chunkNo < ChunkCount(|text|)
    ensures fresh(result) && result.next == null && result.prev == null
    ensures ResultIn(result) == ResultOf(text, chunkNo)
    ensures encodedSize == |ChunkText(text, chunkNo)|
  {
    var cells;
    cells, encodedSize := FillCells(memory, chunkNo, text);
    EncodedAll(cells, ChunkText(text, chunkNo));
    result := new Node(chunkNo, cells);
  }

  /** The loop alone. */
  method FillCells(memory: array<code>, chunkNo: nat, ghost text: seq<code>) returns (cells: seq<code>, written: nat)
    requires memory[..] == text + [0] && 0 !in text
    requires chunkNo < ChunkCount(|text|)
    ensures written == |ChunkText(text, chunkNo)| && EncodedSoFar(cells, ChunkText(text, chunkNo), written)
  {
    ghost var chunk := ChunkText(text, chunkNo);
    cells := seq(128, _ => NO_CODE);
    var start := chunkNo * 128;
    var end := start + 128;
    written := 0;
    ghost var chars := memory[..];
    CharacterOfChunk(chars, text, chunkNo, 0);
    while start != end && memory[start] != 0
      invariant start == end - 128 + written && written <= 128
      invariant EncodedSoFar(cells, chunk, written)
      invariant start != end ==>
                  && start < memory.Length
                  && (chars[start] != 0 <==> written < |chunk|)
                  && (written < |chunk| ==> chars[start] == chunk[written])
      decreases end - start
    {
      assert memory[start] == chars[start];
      EncodedOneMore(cells, chunk, written);
      cells := cells[written := EncodeChar(memory[start])];
      start, written := start + 1, written + 1;
      if written < 128 {
        CharacterOfChunk(chars, text, chunkNo, written);
      }
    }
    assert start != end ==> memory[start] == chars[start];
  }

  ghost function ResultIn(node: Node): Result {
    Result(node.chunkNo, node.encodedString)
  }

  /** The results a sequence of nodes holds. */
  ghost function Results(nodes: seq<Node>): (results: seq<Result>)
    ensures |results| == |nodes|
  {
    if nodes == [] then [] else [ResultIn(nodes[0])] + Results(nodes[1..])
  }

  ghost function Inserted(nodes: seq<Node>, p: nat, node: Node): seq<Node>
    requires p <= |nodes|
  {
    nodes[..p] + [node] + nodes[p..]
  }

  class ResultList {
    var head: Node?
    var tail: Node?
    ghost var nodes: seq<Node>

    /** next and prev are mutually inverse along `nodes`, which has no repetition. */
    ghost predicate Linked()
      reads this, nodes
    {
      && (forall i, j | 0 <= i < j < |nodes| :: nodes[i] != nodes[j])
      && (forall i {:trigger nodes[i].next} | 0 <= i < |nodes| ::
            nodes[i].next == if i + 1 < |nodes| then nodes[i + 1] else null)
      && (forall i {:trigger nodes[i].prev} | 0 <= i < |nodes| ::
            nodes[i].prev == if i > 0 then nodes[i - 1] else null)
      && head == (if nodes == [] then null else nodes[0])
      && tail == (if nodes == [] then null else nodes[|nodes| - 1])
    }

    ghost predicate Valid()
      reads this, nodes
    {
      Linked() && Ascending(Results(nodes))
    }

    constructor ()
      ensures Valid() && nodes == []
    {
      head, tail, nodes := null, null, [];
    }

    /** `store_result`: the new node goes behind the last node with a smaller chunk number. The list
        stays linked and ascending, strictly if the chunk number is new, and it holds exactly one node
        more; on the stored results this is the `Insert` of the interleaving model. */
    method StoreResult(result: Node?) returns (ghost p: nat)
      requires Valid()
      requires result != null ==> result !in nodes && result.next == null && result.prev == null
      modifies this, nodes, result
      ensures Valid()
      ensures result == null ==> nodes == old(nodes)
      ensures result != null ==> p <= |old(nodes)| && nodes == Inserted(old(nodes), p, result)
      ensures result != null ==> Stored(Results(old(nodes)), ResultIn(result), Results(nodes))
    {
      p := 0;
      if result != null {
        ghost var before := nodes;
        p := Place(result);
        StoredInPlace(before, p, result);
      }
    }

    /** The scan and the splice. */
    method Place(result: Node) returns (ghost p: nat)
      requires Linked() && result !in nodes && result.next == null && result.prev == null
      modifies this, nodes, result
      ensures Linked() && p <= |old(nodes)| && nodes == Inserted(old(nodes), p, result)
      ensures BehindSmaller(old(nodes), p, result)
    {
      var current;
      current, p := FindPredecessor(result);
      LinkBehind(current, result, p);
    }

    /** The scan of `store_result`: back from the tail to the first node with a smaller number. */
    method FindPredecessor(result: Node) returns (current: Node?, ghost p: nat)
      requires Linked()
      ensures BehindSmaller(nodes, p, result)
      ensures current == if p > 0 then nodes[p - 1] else null
    {
      current, p := tail, |nodes|;
      while current != null
        invariant p <= |nodes| && current == if p > 0 then nodes[p - 1] else null
        invariant forall i | p <= i < |nodes| :: result.chunkNo <= nodes[i].chunkNo
        decreases p
      {
        if current.chunkNo < result.chunkNo {
          break;
        }
        current := current.prev;
        p := p - 1;
      }
    }

    /** The second half of `store_result`: splice the node in behind `current`, or at the head. */
    method LinkBehind(current: Node?, result: Node, ghost p: nat)
      requires Linked() && result !in nodes && result.next == null && result.prev == null
      requires p <= |nodes| && current == if p > 0 then nodes[p - 1] else null
      modifies this, nodes, result
      ensures Linked() && nodes == Inserted(old(nodes), p, result)
    {
      if current != null {
        LinkAfter(current, result, p);
      } else {
        LinkFirst(result);
      }
    }

    method LinkAfter(current: Node, result: Node, ghost p: nat)
      requires Linked() && result !in nodes && 0 < p <= |nodes| && current == nodes[p - 1]
      modifies this, nodes, result
      ensures Linked() && nodes == Inserted(old(nodes), p, result)
    {
      var following := current.next;
      current.next := result;
      result.prev := current;
      result.next := following;
      if following != null {
        following.prev := result;
      } else {
        tail := result;
      }
      nodes := Inserted(nodes, p, result);
    }

    method LinkFirst(result: Node)
      requires Linked() && result !in nodes && result.prev == null
      modifies this, nodes, result
      ensures Linked() && nodes == Inserted(old(nodes), 0, result)
    {
      var following := head;
      head := result;
      result.next := following;
      if following == null {
        tail := result;
      } else {
        following.prev := result;
      }
      nodes := Inserted(nodes, 0, result);
    }

    /** `print_encoding_results`: walk the list, printing each chunk up to its first NO_CODE. */
    method PrintEncodingResults() returns (output: seq<code>)
      requires Linked() && forall n | n in nodes :: |n.encodedString| == 128
      ensures output == Print(Results(nodes))
    {
      output := [];
      var node := head;
      ghost var p := 0;
      assert nodes[0..] == nodes;
      while node != null
        invariant p <= |nodes| && node == if p < |nodes| then nodes[p] else null
        invariant output + Print(Results(nodes[p..])) == Print(Results(nodes))
        decreases |nodes| - p
      {
        var printed := PrintCodes(node.encodedString);
        PrintedSoFar(nodes, p, output, printed);
        output := output + printed;
        node := node.next;
        p := p + 1;
      }
      assert nodes[p..] == [];
    }
  }

  lemma PrintedSoFar(nodes: seq<Node>, p: nat, output: seq<code>, printed: seq<code>)
    requires p < |nodes| && printed == UntilNoCode(nodes[p].encodedString)
    ensures (output + printed) + Print(Results(nodes[p + 1..])) == output + Print(Results(nodes[p..]))
  {
    var rest := nodes[p + 1..];
    assert nodes[p..][1..] == rest;
    PrintFirst(ResultIn(nodes[p]), Results(rest));
    assert (output + printed) + Print(Results(rest)) == output + (printed + Print(Results(rest)));
  }

  /** Place `p` lies behind the last node with a smaller number. */
  ghost predicate BehindSmaller(nodes: seq<Node>, p: nat, result: Node) {
    && p <= |nodes|
    && (forall i | p <= i < |nodes| :: result.chunkNo <= nodes[i].chunkNo)
    && (p > 0 ==> nodes[p - 1].chunkNo < result.chunkNo)
  }

  /** That is where `Insert` puts the result. */
  lemma PlaceFound(front: seq<Node>, result: Node, back: seq<Node>)
    requires BehindSmaller(front + back, |front|, result)
    ensures Results(Inserted(front + back, |front|, result)) == Insert(Results(front + back), ResultIn(result))
  {
    assert forall i | 0 <= i < |back| :: back[i] == (front + back)[|front| + i];
    assert front != [] ==> (front + back)[|front| - 1] == front[|front| - 1];
    StoredBetween(front, result, back);
    InsertedBetween(front, result, back);
  }

  ghost predicate NewNumber(list: seq<Result>, r: Result) {
    forall x | x in list :: x.chunkNo != r.chunkNo
  }

  /** What storing a result does to the list: the list stays ascending, and strictly so if the chunk
      number is new. */
  ghost predicate Stored(before: seq<Result>, r: Result, after: seq<Result>) {
    && after == Insert(before, r)
    && Ascending(after)
    && (StrictlyAscending(before) && NewNumber(before, r) ==> StrictlyAscending(after))
  }

  lemma InsertedAscends(list: seq<Result>, r: Result)
    requires Ascending(list)
    ensures Stored(list, r, Insert(list, r))
  {
    InsertKeepsOrder(list, r);
    if StrictlyAscending(list) && NewNumber(list, r) {
      InsertKeepsStrict(list, r);
    }
  }

  lemma StoredInPlace(before: seq<Node>, p: nat, result: Node)
    requires Ascending(Results(before)) && BehindSmaller(before, p, result)
    ensures Stored(Results(before), ResultIn(result), Results(Inserted(before, p, result)))
  {
    assert before == before[..p] + before[p..];
    PlaceFound(before[..p], result, before[p..]);
    InsertedAscends(Results(before), ResultIn(result));
  }

  lemma {:induction false} ResultsConcat(a: seq<Node>, b: seq<Node>)
    ensures Results(a + b) == Results(a) + Results(b)
  {
    if a == [] {
      assert a + b == b;
    } else {
      assert (a + b)[1..] == a[1..] + b;
      ResultsConcat(a[1..], b);
    }
  }

  lemma {:induction false} ResultsAt(nodes: seq<Node>, i: nat)
    requires i < |nodes|
    ensures Results(nodes)[i] == ResultIn(nodes[i])
  {
    if i > 0 {
      ResultsAt(nodes[1..], i - 1);
    }
  }

  lemma StoredBetween(front: seq<Node>, result: Node, back: seq<Node>)
    requires forall i | 0 <= i < |back| :: result.chunkNo <= back[i].chunkNo
    requires front != [] ==> front[|front| - 1].chunkNo < result.chunkNo
    ensures Results(front + [result] + back) == Insert(Results(front + back), ResultIn(result))
  {
    ResultsConcat(front + [result], back);
    ResultsConcat(front, [result]);
    ResultsConcat(front, back);
    assert Results([result]) == [ResultIn(result)];
    forall i | 0 <= i < |back|
      ensures result.chunkNo <= Results(back)[i].chunkNo
    {
      ResultsAt(back, i);
    }
    if front != [] {
      ResultsAt(front, |front| - 1);
    }
    InsertSplit(Results(front), ResultIn(result), Results(back));
  }

  lemma InsertedBetween(front: seq<Node>, node: Node, back: seq<Node>)
    ensures Inserted(front + back, |front|, node) == front + [node] + back
    ensures front != [] ==> (front + back)[|front| - 1] == front[|front| - 1]
  {
  }

  /** Inserting behind the last smaller result. */
  lemma {:induction false} InsertSplit(front: seq<Result>, r: Result, back: seq<Result>)
    requires forall x | x in back :: r.chunkNo <= x.chunkNo
    requires front != [] ==> front[|front| - 1].chunkNo < r.chunkNo
    ensures Insert(front + back, r) == front + [r] + back
  {
    if back == [] {
      assert front + back == front;
    } else {
      var init, last := back[..|back| - 1], back[|back| - 1];
      assert (front + back)[..|front + back| - 1] == front + init;
      InsertSplit(front, r, init);
      assert back == init + [last];
    }
  }
}
