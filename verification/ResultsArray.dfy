/** The result array of versions 2 and 3 of the encoder of ihw4, updated in place. */
module ResultsArray {
  import opened Prelude
  import opened Chunks
  import opened Encoding
  import opened SlotEncoder

  /** A result is stored into the next free slot; a thread without a result stores nothing. */
  function WithResult(s: State, result: Option<Result>): State
    requires result.Some? ==> s.size < |s.slots|
  {
    if result.None? then s else s.(slots := s.slots[s.size := result], size := s.size + 1)
  }

  /** The last two steps of a thread without interference: claiming a slot and filling it. */
  lemma StoreIsTwoSteps(text: seq<code>, s: State, i: nat)
    requires Inv(text, s) && i < |s.threads| && s.threads[i].Encoding?
    ensures s.size < |s.slots| && Shape(text, Apply(text, s, i))
    ensures Apply(text, Apply(text, s, i), i)
            == WithResult(s, Some(ResultOf(text, s.threads[i].k))).(threads := s.threads[i := Claiming])
  {
    SlotIsAvailable(text, s, i);
    StepKeepsInv(text, s, i);
    assert s.threads[i := Storing(s.threads[i].k, s.size)][i := Claiming] == s.threads[i := Claiming];
  }

  /** Printing goes on slot by slot. */
  lemma PrintNextSlot(slots: seq<Option<Result>>, i: nat, output: seq<code>)
    requires i < |slots|
    ensures slots[i].None? ==> output + PrintSlots(slots[i..]) == output + PrintSlots(slots[i + 1..])
    ensures slots[i].Some? ==>
              output + PrintSlots(slots[i..])
              == (output + UntilNoCode(slots[i].value.codes)) + PrintSlots(slots[i + 1..])
  {
    assert slots[i..][0] == slots[i] && slots[i..][1..] == slots[i + 1..];
    var later := PrintSlots(slots[i + 1..]);
    if slots[i].Some? {
      var printed := UntilNoCode(slots[i].value.codes);
      assert output + (printed + later) == (output + printed) + later;
    } else {
      assert [] + later == later;
    }
  }

  class Package {
    const resultsArray: array<Option<Result>>
    var currentArraySize: nat
    var lastFreeChunkNo: nat

    /** The slots claimed so far are filled, all others are free. */
    ghost predicate Valid()
      reads this, resultsArray
    {
      && currentArraySize <= resultsArray.Length
      && forall j | 0 <= j < resultsArray.Length :: resultsArray[j].Some? <==> j < currentArraySize
    }

    ghost function View(threads: seq<Thread>): State
      reads this, resultsArray
    {
      State(lastFreeChunkNo, currentArraySize, threads, resultsArray[..])
    }

    constructor (slots: nat)
      ensures Valid() && fresh(resultsArray) && resultsArray.Length == slots
      ensures currentArraySize == 0 && lastFreeChunkNo == 0
    {
      resultsArray := new Option<Result>[slots](_ => None);
      currentArraySize, lastFreeChunkNo := 0, 0;
    }

    /** Each chunk number is handed out once. */
    method GetNextChunkNo() returns (chunkNo: nat)
      modifies this`lastFreeChunkNo
      ensures chunkNo == old(lastFreeChunkNo) && lastFreeChunkNo == old(lastFreeChunkNo) + 1
    {
      chunkNo := lastFreeChunkNo;
      lastFreeChunkNo := lastFreeChunkNo + 1;
    }

    /** `store_result` without interference, which is `StoreIsTwoSteps` of the machine. */
    method StoreResult(result: Option<Result>)
      requires Valid() && (result.Some? ==> currentArraySize < resultsArray.Length)
      modifies this`currentArraySize, resultsArray
      ensures Valid()
      ensures View([]) == WithResult(old(View([])), result)
      ensures result.Some? ==> old(resultsArray[..])[old(currentArraySize)] == None
    {
      if result.None? {
        return;
      }
      var index := currentArraySize;
      currentArraySize := currentArraySize + 1;
      resultsArray[index] := result;
    }

    /** `print_encoding_results`. */
    method PrintEncodingResults() returns (output: seq<code>)
      requires Valid()
      requires forall j | 0 <= j < currentArraySize :: |resultsArray[j].value.codes| == 128
      ensures output == PrintSlots(resultsArray[..currentArraySize])
    {
      output := [];
      ghost var slots := resultsArray[..currentArraySize];
      assert slots[0..] == slots;
      for i := 0 to currentArraySize
        invariant output + PrintSlots(slots[i..]) == PrintSlots(slots)
      {
        PrintNextSlot(slots, i, output);
        assert resultsArray[i] == slots[i];
        if resultsArray[i].Some? {
          var printed := PrintCodes(resultsArray[i].value.codes);
          output := output + printed;
        }
      }
    }
  }
}
