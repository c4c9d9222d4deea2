/** What the chunk encoder of ihw4 prints: one sequential specification for its three versions. */
module Encoding {
  import opened Prelude
  import opened Chunks

  /** `coding_table`: the codes of 'A'..'z'. The six characters between 'Z' and 'a' have none. */
  function CodingTable(index: nat): code
    requires index < 58
  {
    match index
    case 0 => 40 case 1 => 35 case 2 => 164 case 3 => 65
    case 4 => 88 case 5 => 95 case 6 => 26 case 7 => 3
    case 8 => 159 case 9 => 190 case 10 => 25 case 11 => 19
    case 12 => 53 case 13 => 184 case 14 => 211 case 15 => 157
    case 16 => 121 case 17 => 163 case 18 => 168 case 19 => 137
    case 20 => 42 case 21 => 17 case 22 => 93 case 23 => 145
    case 24 => 242 case 25 => 36 case 32 => 158 case 33 => 128
    case 34 => 148 case 35 => 155 case 36 => 102 case 37 => 210
    case 38 => 100 case 39 => 68 case 40 => 71 case 41 => 207
    case 42 => 175 case 43 => 122 case 44 => 60 case 45 => 198
    case 46 => 9 case 47 => 139 case 48 => 108 case 49 => 81
    case 50 => 1 case 51 => 169 case 52 => 195 case 53 => 194
    case 54 => 193 case 55 => 61 case 56 => 185 case 57 => 140
    case _ => NO_CODE
  }

  /** `encode_char`: the subtraction is on uint32_t, so characters below 'A' wrap around. */
  function EncodeChar(c: int): code {
    var index := (c % 256 - 65) % 0x1_0000_0000;
    if index >= 58 then NO_CODE else CodingTable(index)
  }

  predicate IsLetter(c: code) {
    65 <= c <= 90 || 97 <= c <= 122
  }

  /** The letter with a given code. */
  function DecodeChar(x: code): code {
    match x
    case 40 => 65 case 35 => 66 case 164 => 67 case 65 => 68
    case 88 => 69 case 95 => 70 case 26 => 71 case 3 => 72
    case 159 => 73 case 190 => 74 case 25 => 75 case 19 => 76
    case 53 => 77 case 184 => 78 case 211 => 79 case 157 => 80
    case 121 => 81 case 163 => 82 case 168 => 83 case 137 => 84
    case 42 => 85 case 17 => 86 case 93 => 87 case 145 => 88
    case 242 => 89 case 36 => 90 case 158 => 97 case 128 => 98
    case 148 => 99 case 155 => 100 case 102 => 101 case 210 => 102
    case 100 => 103 case 68 => 104 case 71 => 105 case 207 => 106
    case 175 => 107 case 122 => 108 case 60 => 109 case 198 => 110
    case 9 => 111 case 139 => 112 case 108 => 113 case 81 => 114
    case 1 => 115 case 169 => 116 case 195 => 117 case 194 => 118
    case 193 => 119 case 61 => 120 case 185 => 121 case 140 => 122
    case _ => 0
  }

  function Encode(text: seq<code>): (codes: seq<code>)
    ensures |codes| == |text|
  {
    Map(EncodeChar, text)
  }

  function Decode(codes: seq<code>): (text: seq<code>)
    ensures |text| == |codes|
  {
    if codes == [] then [] else [DecodeChar(codes[0])] + Decode(codes[1..])
  }

  function ResultOf(text: seq<code>, k: nat): Result
    requires k < ChunkCount(|text|)
  {
    ResultVia(EncodeChar, text, k)
  }

  /** The stored results in chunk order, from chunk `k`. */
  function ResultsFrom(text: seq<code>, k: nat): seq<Result>
    requires k <= ChunkCount(|text|)
  {
    ResultsVia(EncodeChar, text, k)
  }

  /** The sequential specification: per chunk, the encoded prefix before the first NO_CODE. */
  function Printed(text: seq<code>): seq<code> {
    PrintedVia(EncodeChar, text)
  }

  // --- the table ------------------------------------------------------------------------------

  lemma TableIndex(c: code)
    requires c >= 65
    ensures EncodeChar(c) == if c - 65 >= 58 then NO_CODE else CodingTable(c - 65)
  {
    assert c % 256 == c;
  }

  lemma BelowTable(c: code)
    requires c < 65
    ensures EncodeChar(c) == NO_CODE
  {
    assert c % 256 == c;
    assert (c - 65) % 0x1_0000_0000 == c - 65 + 0x1_0000_0000;
  }

  lemma TableEntries(i: nat)
    requires i < 58
    ensures CodingTable(i) != NO_CODE <==> i < 26 || 32 <= i
  {
  }

  /** Exactly the letters have a code. */
  lemma LettersHaveCodes(c: code)
    ensures EncodeChar(c) != NO_CODE <==> IsLetter(c)
  {
    if c < 65 {
      BelowTable(c);
    } else {
      TableIndex(c);
      if c - 65 < 58 {
        TableEntries(c - 65);
      }
    }
  }

  lemma UpperRoundTrip(i: nat)
    requires i < 26
    ensures DecodeChar(CodingTable(i)) == 65 + i
  {
  }

  lemma LowerRoundTrip(i: nat)
    requires 32 <= i < 58
    ensures DecodeChar(CodingTable(i)) == 65 + i
  {
  }

  /** The table has no repeated code, so every letter can be recovered from its code. */
  lemma LetterRoundTrip(c: code)
    requires IsLetter(c)
    ensures DecodeChar(EncodeChar(c)) == c
  {
    TableIndex(c);
    if c <= 90 {
      UpperRoundTrip(c - 65);
    } else {
      LowerRoundTrip(c - 65);
    }
  }

  // --- what printing shows --------------------------------------------------------------------

  lemma EncodeAt(text: seq<code>, i: nat)
    requires i < |text|
    ensures Encode(text)[i] == EncodeChar(text[i])
  {
    MapAt(EncodeChar, text, i);
  }

  /** Printing the results in chunk order is the sequential specification. */
  lemma PrintInOrder(text: seq<code>)
    ensures Print(ResultsFrom(text, 0)) == Printed(text)
  {
    PrintInOrderVia(EncodeChar, text, 0);
    assert TextFrom(text, 0) == text;
  }

  lemma NoCodeIsNeverPrinted(text: seq<code>)
    ensures NO_CODE !in Printed(text)
  {
    NoCodeNotPrinted(EncodeChar, text);
  }

  /** `stop` is the first position in chunk `k` without a letter, or the end of the chunk. */
  ghost predicate LettersEnd(text: seq<code>, k: nat, stop: nat) {
    && k * 128 <= stop <= Min((k + 1) * 128, |text|)
    && (forall i | k * 128 <= i < stop :: IsLetter(text[i]))
    && (stop < Min((k + 1) * 128, |text|) ==> !IsLetter(text[stop]))
  }

  lemma LettersAreCodes(text: seq<code>, k: nat, stop: nat)
    requires LettersEnd(text, k, stop)
    ensures CodesEnd(EncodeChar, text, k, stop)
  {
    forall i | k * 128 <= i < Min((k + 1) * 128, |text|)
      ensures EncodeChar(text[i]) != NO_CODE <==> IsLetter(text[i])
    {
      LettersHaveCodes(text[i]);
    }
  }

  /** What is printed: for each chunk, the codes of its characters before the first one that is no
      letter; the rest of that chunk is left out, and the next chunk follows. */
  lemma PrintedPieces(text: seq<code>, stops: seq<nat>)
    requires |stops| == ChunkCount(|text|)
    requires forall k | 0 <= k < |stops| :: LettersEnd(text, k, stops[k])
    ensures forall k | 0 <= k < |stops| :: Behind(text, k, stops[k])
    ensures Printed(text) == Pieces(EncodeChar, text, stops, 0)
  {
    forall k: nat | k < |stops|
      ensures CodesEnd(EncodeChar, text, k, stops[k])
    {
      LettersAreCodes(text, k, stops[k]);
    }
    PiecesPrint(EncodeChar, text, stops, 0);
    assert TextFrom(text, 0) == text;
  }

  /** There is such a position in every chunk. */
  lemma {:induction false} LettersEndSomewhere(text: seq<code>, k: nat, from: nat) returns (stop: nat)
    requires k * 128 <= from <= Min((k + 1) * 128, |text|)
    requires forall i | k * 128 <= i < from :: IsLetter(text[i])
    ensures LettersEnd(text, k, stop)
    decreases |text| - from
  {
    if from < Min((k + 1) * 128, |text|) && IsLetter(text[from]) {
      stop := LettersEndSomewhere(text, k, from + 1);
    } else {
      stop := from;
    }
  }

  /** The output is the encoding of the whole string exactly when the string is all letters. */
  lemma PrintsEverythingIffLetters(text: seq<code>)
    ensures Printed(text) == Encode(text) <==> forall c | c in text :: IsLetter(c)
  {
    if c :| c in text && !IsLetter(c) {
      var i :| 0 <= i < |text| && text[i] == c;
      EncodeAt(text, i);
      LettersHaveCodes(c);
      NoCodeIsNeverPrinted(text);
      assert NO_CODE in Encode(text);
    } else {
      forall c | c in text
        ensures EncodeChar(c) != NO_CODE
      {
        LettersHaveCodes(c);
      }
      AllPrinted(EncodeChar, text);
    }
  }

  lemma {:induction false} DecodeEncode(text: seq<code>)
    requires forall c | c in text :: IsLetter(c)
    ensures Decode(Encode(text)) == text
  {
    if text != [] {
      LetterRoundTrip(text[0]);
      DecodeEncode(text[1..]);
    }
  }

  /** The output for a string of letters decodes to that string, so no two such strings share one. */
  lemma PrintedDecodes(text: seq<code>, other: seq<code>)
    requires forall c | c in text :: IsLetter(c)
    ensures Decode(Printed(text)) == text
    ensures (forall c | c in other :: IsLetter(c)) && Printed(text) == Printed(other) ==> text == other
  {
    PrintsEverythingIffLetters(text);
    DecodeEncode(text);
    if (forall c | c in other :: IsLetter(c)) && Printed(text) == Printed(other) {
      PrintsEverythingIffLetters(other);
      DecodeEncode(other);
    }
  }
}
