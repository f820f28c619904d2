/**
 The frames a subscriber is sent on connecting: the replay cut into chunks of a fixed
 number of UTF-16 units, each turned into text on its own, and a control frame.
 */
module PtyReplay {
  import opened Utf8
  import opened Utf16

  datatype Frame = Output(data: Text) | Control(cursor: nat)

  function TextOfUnits(us: seq<Unit>): Text {
    Encode(RunesOf(us))
  }

  function Chunks(us: seq<Unit>, size: nat): seq<seq<Unit>>
    requires size > 0
  {
    if us == [] then []
    else if |us| <= size then [us]
    else [us[..size]] + Chunks(us[size..], size)
  }

  /** The texts of the replay frames. */
  function ChunkTexts(us: seq<Unit>, size: nat): seq<Text>
    requires size > 0
  {
    var chunks := Chunks(us, size);
    seq(|chunks|, i requires 0 <= i < |chunks| => TextOfUnits(chunks[i]))
  }

  /** The number of chunk edges that lie inside a surrogate pair. */
  function SplitEdges(us: seq<Unit>, size: nat): nat
    requires size > 0
  {
    if |us| <= size then 0
    else (if SplitsPair(us[..size], us[size..]) then 1 else 0) + SplitEdges(us[size..], size)
  }

  /** The texts one after the other, from the left. */
  function Joined(texts: seq<Text>): Text {
    if texts == [] then [] else texts[0] + Joined(texts[1..])
  }

  /** The runes of the chunks, each decoded on its own. */
  function ChunkRunes(us: seq<Unit>, size: nat): seq<Rune>
    requires size > 0
  {
    if |us| <= size then RunesOf(us) else RunesOf(us[..size]) + ChunkRunes(us[size..], size)
  }

  /** Where chunk `i` ends. */
  function ChunkEnd(us: seq<Unit>, size: nat, i: nat): nat {
    if (i + 1) * size < |us| then (i + 1) * size else |us|
  }

  /** Chunk `i` begins `i` times the size into the replay and ends at the next such place, or with the replay. */
  lemma {:induction false} ChunkIs(us: seq<Unit>, size: nat, i: nat)
    requires size > 0
    ensures i < |Chunks(us, size)| <==> i * size < |us|
    ensures i * size < |us| ==>
              && i * size < ChunkEnd(us, size, i) <= |us|
              && Chunks(us, size)[i] == us[i * size..ChunkEnd(us, size, i)]
  {
    NextEdge(size, i);
    if i == 0 {
      assert 0 * size == 0 && 1 * size == size;
    } else if |us| > size {
      NextEdge(size, i - 1);
      ChunkIs(us[size..], size, i - 1);
      RestOf(us, size, i * size - size, i * size, ChunkEnd(us, size, i));
    }
  }

  lemma RestOf(us: seq<Unit>, size: nat, a: nat, b: nat, end: nat)
    requires size <= |us| && a + size == b
    ensures b < end <= |us| ==> us[size..][a..end - size] == us[b..end]
  {
  }

  lemma NextEdge(size: nat, i: nat)
    requires size > 0
    ensures (i + 1) * size == i * size + size
    ensures i > 0 ==> i * size >= size
  {
    if i > 0 {
      assert i * size == (i - 1) * size + size && (i - 1) * size >= 0;
    }
  }

  /** No frame carries more than its size in units, none is empty, and only the last is shorter. */
  lemma FramesFit(us: seq<Unit>, size: nat, i: nat)
    requires size > 0 && i < |ChunkTexts(us, size)|
    ensures i * size < |us| && i * size < ChunkEnd(us, size, i) <= |us|
    ensures ChunkTexts(us, size)[i] == TextOfUnits(us[i * size..ChunkEnd(us, size, i)])
    ensures ChunkEnd(us, size, i) - i * size == if (i + 1) * size <= |us| then size else |us| - i * size
    ensures ChunkEnd(us, size, i) - i * size <= size
    ensures i + 1 == |ChunkTexts(us, size)| <==> ChunkEnd(us, size, i) == |us|
  {
    ChunkIs(us, size, i);
    ChunkIs(us, size, i + 1);
    NextEdge(size, i);
    hide TextOfUnits, Chunks;
  }

  lemma FirstChunk(us: seq<Unit>, size: nat)
    requires 0 < size < |us|
    ensures ChunkTexts(us, size) == [TextOfUnits(us[..size])] + ChunkTexts(us[size..], size)
  {
  }

  lemma {:induction false} JoinedIsEncodedRunes(us: seq<Unit>, size: nat)
    requires size > 0
    ensures Joined(ChunkTexts(us, size)) == Encode(ChunkRunes(us, size))
  {
    hide RunesOf, Encode, ChunkTexts;
    if |us| <= size {
      OneChunk(us, size);
    } else {
      FirstChunk(us, size);
      JoinedIsEncodedRunes(us[size..], size);
      assert ChunkTexts(us, size)[1..] == ChunkTexts(us[size..], size);
      EncodeConcat(RunesOf(us[..size]), ChunkRunes(us[size..], size));
    }
  }

  lemma OneChunk(us: seq<Unit>, size: nat)
    requires |us| <= size && size > 0
    ensures Joined(ChunkTexts(us, size)) == TextOfUnits(us)
  {
    hide RunesOf;
    if us != [] {
      assert ChunkTexts(us, size) == [TextOfUnits(us)];
      assert Joined([TextOfUnits(us)][1..]) == [];
    } else {
      NoUnits();
    }
  }

  lemma NoUnits()
    ensures TextOfUnits([]) == []
  {
  }

  lemma {:induction false} ChunkRunesCount(us: seq<Unit>, size: nat)
    requires size > 0
    ensures |ChunkRunes(us, size)| == |RunesOf(us)| + SplitEdges(us, size)
    ensures SplitEdges(us, size) == 0 ==> ChunkRunes(us, size) == RunesOf(us)
  {
    hide RunesOf;
    if |us| > size {
      var a, b := us[..size], us[size..];
      assert us == a + b;
      ChunkRunesCount(b, size);
      if SplitsPair(a, b) {
        CutInsidePair(a, b);
      } else {
        CutBetweenRunes(a, b);
      }
    }
  }

  lemma {:induction false} ChunkUnits(us: seq<Unit>, size: nat)
    requires size > 0
    ensures |Units(ChunkRunes(us, size))| == |us|
  {
    hide RunesOf, Units;
    if |us| <= size {
      DecodingKeepsLength(us);
    } else {
      DecodingKeepsLength(us[..size]);
      ChunkUnits(us[size..], size);
      UnitsConcat(RunesOf(us[..size]), ChunkRunes(us[size..], size));
    }
  }

  /** However the chunk edges fall, the client counts as many UTF-16 units as were replayed. */
  lemma ReplayKeepsLength(us: seq<Unit>, size: nat)
    requires size > 0
    ensures |Units(Decode(Joined(ChunkTexts(us, size))))| == |us|
  {
    hide *;
    var rs := ChunkRunes(us, size);
    JoinedIsEncodedRunes(us, size);
    ChunkUnits(us, size);
    DecodeEncode(rs, []);
    NothingToDecode();
    assert Encode(rs) + [] == Encode(rs) && rs + [] == rs;
  }

  lemma NothingToDecode()
    ensures Decode([]) == []
  {
  }

  /** The client reads the text of the whole replay exactly when no chunk edge splits a surrogate pair. */
  lemma ReplayTextIff(us: seq<Unit>, size: nat)
    requires size > 0
    ensures Joined(ChunkTexts(us, size)) == TextOfUnits(us) <==> SplitEdges(us, size) == 0
  {
    hide RunesOf, Encode, ChunkTexts, ChunkRunes, SplitEdges, Joined;
    JoinedIsEncodedRunes(us, size);
    ChunkRunesCount(us, size);
    if Joined(ChunkTexts(us, size)) == TextOfUnits(us) {
      EncodeInjective(ChunkRunes(us, size), RunesOf(us));
    }
  }

  /** One chunk edge inside the pair of U+1F600 is enough to break the text. */
  lemma SplitPairBreaksText(size: nat, filler: seq<Unit>)
    requires size > 0 && |filler| == size - 1
    ensures var us := filler + [0xD83D, 0xDE00];
            Joined(ChunkTexts(us, size)) != TextOfUnits(us)
  {
    hide RunesOf, Encode, ChunkTexts, ChunkRunes, Joined;
    var us := filler + [0xD83D, 0xDE00];
    assert us[..size] == filler + [0xD83D] && us[size..] == [0xDE00];
    ReplayTextIff(us, size);
  }
}
