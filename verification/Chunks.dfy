/** Encoding a text chunk by chunk with any character encoding, and printing the results. */
module Chunks {
  import opened Prelude

  type code = x: nat | x < 256

  const NO_CODE: code := 0

  /** The text with every character encoded by `f`. */
  function Map(f: int -> code, text: seq<code>): (codes: seq<code>)
    ensures |codes| == |text|
  {
    if text == [] then [] else [f(text[0])] + Map(f, text[1..])
  }

  /** The codes before the first NO_CODE, which is where printing a chunk stops. */
  function UntilNoCode(codes: seq<code>): seq<code> {
    if codes == [] || codes[0] == NO_CODE then [] else [codes[0]] + UntilNoCode(codes[1..])
  }

  function ChunkCount(length: nat): nat {
    (length + 128 - 1) / 128
  }

  /** The characters of chunk `k`. */
  function ChunkText(text: seq<code>, k: nat): seq<code>
    requires k < ChunkCount(|text|)
  {
    text[k * 128..Min((k + 1) * 128, |text|)]
  }

  /** The 128 cells of an encoded_result: zeroed, then filled from the front. */
  function Padded(codes: seq<code>): seq<code>
    requires |codes| <= 128
  {
    codes + seq(128 - |codes|, _ => NO_CODE)
  }

  datatype Result = Result(chunkNo: nat, codes: seq<code>)

  /** The result of chunk `k`. */
  function ResultVia(f: int -> code, text: seq<code>, k: nat): Result
    requires k < ChunkCount(|text|)
  {
    Result(k, Padded(Map(f, ChunkText(text, k))))
  }

  /** `print_encoding_results` over the stored results. */
  function Print(results: seq<Result>): seq<code> {
    if results == [] then [] else UntilNoCode(results[0].codes) + Print(results[1..])
  }

  /** The first chunk of a text, and what follows it. */
  function FirstChunk(text: seq<code>): seq<code> {
    text[..Min(128, |text|)]
  }

  function Later(text: seq<code>): (later: seq<code>)
    ensures text != [] ==> |later| < |text|
  {
    text[Min(128, |text|)..]
  }

  /** Chunk after chunk: the encoded prefix before the first NO_CODE. */
  function PrintedVia(f: int -> code, text: seq<code>): seq<code>
    decreases |text|
  {
    if text == [] then [] else UntilNoCode(Map(f, FirstChunk(text))) + PrintedVia(f, Later(text))
  }

  /** The results in chunk order, from chunk `k`. */
  function ResultsVia(f: int -> code, text: seq<code>, k: nat): seq<Result>
    requires k <= ChunkCount(|text|)
    decreases ChunkCount(|text|) - k
  {
    if k == ChunkCount(|text|) then [] else [ResultVia(f, text, k)] + ResultsVia(f, text, k + 1)
  }

  lemma {:induction false} MapAt(f: int -> code, text: seq<code>, i: nat)
    requires i < |text|
    ensures Map(f, text)[i] == f(text[i])
  {
    if i > 0 {
      MapAt(f, text[1..], i - 1);
    }
  }

  lemma {:induction false} MapConcat(f: int -> code, a: seq<code>, b: seq<code>)
    ensures Map(f, a + b) == Map(f, a) + Map(f, b)
  {
    if a == [] {
      assert a + b == b;
    } else {
      assert (a + b)[1..] == a[1..] + b;
      MapConcat(f, a[1..], b);
    }
  }

  /** `n` codes come before the first NO_CODE. */
  ghost predicate StopsAfter(codes: seq<code>, n: nat) {
    n <= |codes| && (forall i | 0 <= i < n :: codes[i] != NO_CODE) && (n < |codes| ==> codes[n] == NO_CODE)
  }

  /** Printing stops at the first NO_CODE: what is printed is all before it, and nothing behind it. */
  lemma {:induction false} PrintingStops(codes: seq<code>)
    ensures var n := |UntilNoCode(codes)|; StopsAfter(codes, n) && UntilNoCode(codes) == codes[..n]
  {
    if codes != [] && codes[0] != NO_CODE {
      PrintingStops(codes[1..]);
    }
  }

  lemma {:induction false} StopIsUnique(codes: seq<code>, n: nat)
    requires StopsAfter(codes, n)
    ensures UntilNoCode(codes) == codes[..n]
  {
    if n > 0 {
      assert codes[0] != NO_CODE;
      forall i | 0 <= i < n - 1
        ensures codes[1..][i] != NO_CODE
      {
        assert codes[1..][i] == codes[i + 1];
      }
      StopIsUnique(codes[1..], n - 1);
    }
  }

  /** The zeroed tail of a chunk's cells is never printed. */
  lemma {:induction false} PaddingIsInvisible(codes: seq<code>, n: nat)
    ensures UntilNoCode(codes + seq(n, _ => NO_CODE)) == UntilNoCode(codes)
  {
    if codes == [] {
      assert codes + seq(n, _ => NO_CODE) == seq(n, _ => NO_CODE);
    } else {
      assert (codes + seq(n, _ => NO_CODE))[1..] == codes[1..] + seq(n, _ => NO_CODE);
      PaddingIsInvisible(codes[1..], n);
    }
  }

  /** A stored result prints as its unpadded codes do. */
  lemma ResultPrints(f: int -> code, text: seq<code>, k: nat)
    requires k < ChunkCount(|text|)
    ensures UntilNoCode(ResultVia(f, text, k).codes) == UntilNoCode(Map(f, ChunkText(text, k)))
  {
    var codes := Map(f, ChunkText(text, k));
    PaddingIsInvisible(codes, 128 - |codes|);
  }

  /** Printing goes through the results one after the other. */
  lemma PrintFirst(r: Result, rest: seq<Result>)
    ensures Print([r] + rest) == UntilNoCode(r.codes) + Print(rest)
  {
    assert ([r] + rest)[1..] == rest;
  }

  lemma ChunkBounds(length: nat, k: nat)
    ensures k < ChunkCount(length) <==> k * 128 < length
  {
  }

  /** The text from chunk `k` on. */
  function TextFrom(text: seq<code>, k: nat): seq<code> {
    text[Min(k * 128, |text|)..]
  }

  /** Its first chunk is chunk `k`, and behind that comes the text from chunk `k + 1` on. */
  lemma ChunkSplit(text: seq<code>, k: nat)
    requires k < ChunkCount(|text|)
    ensures TextFrom(text, k) != []
    ensures FirstChunk(TextFrom(text, k)) == ChunkText(text, k)
    ensures Later(TextFrom(text, k)) == TextFrom(text, k + 1)
  {
    ChunkBounds(|text|, k);
  }

  lemma TextEnds(text: seq<code>)
    ensures TextFrom(text, ChunkCount(|text|)) == []
  {
    ChunkBounds(|text|, ChunkCount(|text|));
  }

  /** Printing the results in chunk order prints each chunk's prefix in order. */
  lemma {:induction false} PrintInOrderVia(f: int -> code, text: seq<code>, k: nat)
    requires k <= ChunkCount(|text|)
    ensures Print(ResultsVia(f, text, k)) == PrintedVia(f, TextFrom(text, k))
    decreases ChunkCount(|text|) - k
  {
    if k < ChunkCount(|text|) {
      ResultPrints(f, text, k);
      ChunkSplit(text, k);
      PrintFirst(ResultVia(f, text, k), ResultsVia(f, text, k + 1));
      PrintInOrderVia(f, text, k + 1);
    } else {
      TextEnds(text);
    }
  }

  /** `stop` is the first position in chunk `k` whose character has no code, or the end of the chunk. */
  ghost predicate CodesEnd(f: int -> code, text: seq<code>, k: nat, stop: nat) {
    && k * 128 <= stop <= Min((k + 1) * 128, |text|)
    && (forall i | k * 128 <= i < stop :: f(text[i]) != NO_CODE)
    && (stop < Min((k + 1) * 128, |text|) ==> f(text[stop]) == NO_CODE)
  }

  /** Position `stop` lies in the text, behind the start of chunk `k`. */
  ghost predicate Behind(text: seq<code>, k: nat, stop: nat) {
    k * 128 <= stop <= |text|
  }

  /** From chunk `k` on, the codes of each chunk's characters before its stop. */
  ghost function Pieces(f: int -> code, text: seq<code>, stops: seq<nat>, k: nat): seq<code>
    requires forall j | k <= j < |stops| :: Behind(text, j, stops[j])
    decreases |stops| - k
  {
    if k >= |stops| then []
    else
      assert Behind(text, k, stops[k]);
      Map(f, text[k * 128..stops[k]]) + Pieces(f, text, stops, k + 1)
  }

  lemma SplitAt(text: seq<code>, n: nat)
    requires n <= |text|
    ensures text == text[..n] + text[n..]
  {
  }

  lemma PrefixOfSlice(text: seq<code>, a: nat, b: nat, c: nat)
    requires a <= b <= c <= |text|
    ensures text[a..c][..b - a] == text[a..b]
  {
  }

  lemma ChunkPrints(f: int -> code, text: seq<code>, k: nat, stop: nat)
    requires k < ChunkCount(|text|) && CodesEnd(f, text, k, stop)
    ensures UntilNoCode(Map(f, ChunkText(text, k))) == Map(f, text[k * 128..stop])
  {
    var chunk := ChunkText(text, k);
    var n := stop - k * 128;
    var before, behind := chunk[..n], chunk[n..];
    SplitAt(chunk, n);
    PrefixOfSlice(text, k * 128, stop, Min((k + 1) * 128, |text|));
    MapConcat(f, before, behind);
    forall i | 0 <= i < n
      ensures Map(f, before)[i] != NO_CODE
    {
      MapAt(f, before, i);
      assert before[i] == text[k * 128 + i];
    }
    if behind != [] {
      MapAt(f, behind, 0);
      assert behind[0] == text[stop];
    }
    StopIsUnique(Map(f, before) + Map(f, behind), n);
  }

  /** Printing prints these pieces. */
  lemma {:induction false} PiecesPrint(f: int -> code, text: seq<code>, stops: seq<nat>, k: nat)
    requires k <= |stops| == ChunkCount(|text|)
    requires forall j | 0 <= j < |stops| :: CodesEnd(f, text, j, stops[j])
    ensures forall j | k <= j < |stops| :: Behind(text, j, stops[j])
    ensures PrintedVia(f, TextFrom(text, k)) == Pieces(f, text, stops, k)
    decreases |stops| - k
  {
    forall j: nat | j < |stops|
      ensures Behind(text, j, stops[j])
    {
      assert CodesEnd(f, text, j, stops[j]);
    }
    if k < |stops| {
      ChunkSplit(text, k);
      ChunkPrints(f, text, k, stops[k]);
      PiecesPrint(f, text, stops, k + 1);
    } else {
      TextEnds(text);
    }
  }

  lemma {:induction false} AllKept(f: int -> code, text: seq<code>)
    requires forall c | c in text :: f(c) != NO_CODE
    ensures UntilNoCode(Map(f, text)) == Map(f, text)
  {
    if text != [] {
      AllKept(f, text[1..]);
    }
  }

  /** If every character has a code, everything is printed. */
  lemma {:induction false} AllPrinted(f: int -> code, text: seq<code>)
    requires forall c | c in text :: f(c) != NO_CODE
    ensures PrintedVia(f, text) == Map(f, text)
    decreases |text|
  {
    if text != [] {
      AllKept(f, FirstChunk(text));
      AllPrinted(f, Later(text));
      MapConcat(f, FirstChunk(text), Later(text));
      assert text == FirstChunk(text) + Later(text);
    }
  }

  lemma {:induction false} NoCodeNotPrinted(f: int -> code, text: seq<code>)
    ensures NO_CODE !in PrintedVia(f, text)
    decreases |text|
  {
    if text != [] {
      PrintingStops(Map(f, FirstChunk(text)));
      NoCodeNotPrinted(f, Later(text));
    }
  }

  // --- printing in place ----------------------------------------------------------------------

  /** The inner loop of `print_encoding_results`: the codes before the first NO_CODE, and no more. */
  method PrintCodes(codes: seq<code>) returns (output: seq<code>)
    requires |codes| == 128
    ensures StopsAfter(codes, |output|) && output == codes[..|output|]
    ensures output == UntilNoCode(codes)
  {
    output := [];
    var j := 0;
    while j < 128 && codes[j] != NO_CODE
      invariant j <= 128 && output == codes[..j]
      invariant forall i | 0 <= i < j :: codes[i] != NO_CODE
    {
      output := output + [codes[j]];
      j := j + 1;
    }
    StopIsUnique(codes, j);
  }
}
