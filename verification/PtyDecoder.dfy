/**
 The streaming decoder of a PTY session: how a raw read is cut into text that can be
 emitted now and an incomplete trailing rune that is carried into the next read.
 */
module PtyDecoder {
  import opened Utf8

  // Keeping the top k bits of a byte is dividing it by 2^(8-k).

  predicate IsContinuationByte(c: Byte) {
    c / 0x40 == 2
  }

  function LeadRuneLen(c: Byte): nat {
    if c / 0x80 == 0 then 1
    else if c / 0x20 == 6 then 2
    else if c / 0x10 == 14 then 3
    else if c / 0x08 == 30 then 4
    else 0
  }

  /** The mask tests as ranges. */
  lemma MaskRanges(c: Byte)
    ensures IsContinuationByte(c) <==> Tail(c)
    ensures LeadRuneLen(c) > 1 <==> 0xC0 <= c <= 0xF7
  {
  }

  /** The last `k` bytes of `b` are a lead byte and continuations, too few for what the lead announces. */
  predicate Dangling(b: Text, k: nat) {
    && 1 <= k <= 3
    && k <= |b|
    && !IsContinuationByte(b[|b| - k])
    && LeadRuneLen(b[|b| - k]) > k
    && forall i | |b| - k < i < |b| :: IsContinuationByte(b[i])
  }

  /** The length of the dangling end of `b`, 0 if it has none. */
  function Hold(b: Text): (k: nat)
    ensures k <= 3 && k <= |b|
  {
    if Dangling(b, 1) then 1 else if Dangling(b, 2) then 2 else if Dangling(b, 3) then 3 else 0
  }

  method AllContinuation(b: Text) returns (all: bool)
    ensures all <==> forall i | 0 <= i < |b| :: IsContinuationByte(b[i])
  {
    for i := 0 to |b|
      invariant forall j | 0 <= j < i :: IsContinuationByte(b[j])
    {
      if !IsContinuationByte(b[i]) {
        return false;
      }
    }
    return true;
  }

  method IncompleteTrailingLen(b: Text) returns (hold: nat)
    ensures hold == Hold(b)
    ensures hold > 0 ==> Dangling(b, hold)
    ensures hold == 0 ==> forall k :: !Dangling(b, k)
  {
    var back := 1;
    while back <= 3 && back <= |b|
      invariant 1 <= back <= 4
      invariant back - 1 <= |b|
      invariant forall i | |b| - back < i < |b| :: IsContinuationByte(b[i])
    {
      var lead := b[|b| - back];
      if IsContinuationByte(lead) {
        back := back + 1;
        continue;
      }
      var need := LeadRuneLen(lead);
      var all := AllContinuation(b[|b| - back + 1..]);
      if need > back && all {
        return back;
      }
      assert forall k | k > back :: !Dangling(b, k) by {
        assert forall k | k > back :: Dangling(b, k) ==> |b| - k < |b| - back;
      }
      return 0;
    }
    return 0;
  }

  /** Valid text passes through; anything else is decoded and encoded again. */
  function DecodeValid(b: Text): Text {
    if Valid(b) then b else Encode(Decode(b))
  }

  datatype Split = Split(text: Text, rest: Text)

  function SplitValid(b: Text): (s: Split)
    ensures |s.rest| <= 3
  {
    if b == [] then Split([], [])
    else
      var hold := Hold(b);
      if hold > 0 then Split(DecodeValid(b[..|b| - hold]), b[|b| - hold..])
      else Split(DecodeValid(b), [])
  }

  // ---------------------------------------------------------------------------
  // Where a byte stream can be cut
  // ---------------------------------------------------------------------------

  /** The pass-through of valid text is only a shortcut. */
  lemma DecodeValidIsReencoding(b: Text)
    ensures DecodeValid(b) == Encode(Decode(b))
    ensures Valid(DecodeValid(b))
    ensures Decode(DecodeValid(b)) == Decode(b)
  {
    if Valid(b) {
      EncodeDecode(b);
    }
    EncodeIsValid(Decode(b));
    DecodeEncode(Decode(b), []);
    assert Encode(Decode(b)) + [] == Encode(Decode(b)) && Decode(b) + Decode([]) == Decode(b);
  }

  /** A decoding step that starts in `a` and does not need what follows it. */
  lemma SameStep(a: Text, b: Text)
    requires a != []
    requires CharLen(a[0]) <= |a| || b == [] || !StartsWithChar(a + b)
    ensures Width(a + b) == Width(a) && FirstRune(a + b) == FirstRune(a)
    ensures (a + b)[Width(a)..] == a[Width(a)..] + b
  {
    assert b == [] ==> a + b == a;
  }

  /** Every byte that is not a continuation starts a decoding step, whatever precedes it. */
  lemma {:induction false} BoundaryBeforeLead(a: Text, b: Text)
    requires b == [] || !IsContinuationByte(b[0])
    ensures Decode(a + b) == Decode(a) + Decode(b)
  {
    hide *;
    if a == [] {
      NothingToDecodeBefore(b);
    } else {
      LeadCutsShort(a, b);
      SameStep(a, b);
      BoundaryBeforeLead(a[Width(a)..], b);
      OneStep(a);
      OneStep(a + b);
      assert [FirstRune(a)] + (Decode(a[Width(a)..]) + Decode(b)) == [FirstRune(a)] + Decode(a[Width(a)..]) + Decode(b);
    }
  }

  lemma NothingToDecodeBefore(b: Text)
    ensures Decode([] + b) == Decode([]) + Decode(b)
  {
    assert [] + b == b;
  }

  lemma OneStep(a: Text)
    requires a != []
    ensures Decode(a) == [FirstRune(a)] + Decode(a[Width(a)..])
  {
    hide FirstRune, Width;
  }

  /** A character that is too short before a byte that does not continue it is none. */
  lemma LeadCutsShort(a: Text, b: Text)
    requires a != [] && (b == [] || !IsContinuationByte(b[0]))
    ensures CharLen(a[0]) <= |a| || b == [] || !StartsWithChar(a + b)
  {
    if b != [] && |a| < CharLen(a[0]) {
      MaskRanges(b[0]);
      assert (a + b)[|a|] == b[0];
      hide IsContinuationByte;
    }
  }

  lemma DanglesInSuffix(a: Text, n: nat, k: nat)
    requires n <= |a|
    ensures Dangling(a[n..], k) ==> Dangling(a, k)
  {
    hide LeadRuneLen, IsContinuationByte;
    assert k <= |a| - n ==> forall i | |a| - k <= i < |a| :: a[i] == a[n..][i - n];
  }

  lemma NothingDanglesInSuffix(a: Text, n: nat)
    requires n <= |a| && Hold(a) == 0
    ensures Hold(a[n..]) == 0
  {
    DanglesInSuffix(a, n, Hold(a[n..]));
    hide Dangling;
  }

  /** A character that `b` completes dangles at the end of `a`. */
  lemma UnfinishedDangles(a: Text, b: Text)
    requires a != [] && |a| < CharLen(a[0]) && StartsWithChar(a + b)
    ensures Hold(a) != 0
  {
    assert forall i | 0 < i < |a| :: IsContinuationByte((a + b)[i]) && (a + b)[i] == a[i];
    assert Dangling(a, |a|);
  }

  /** An end that leaves nothing dangling ends a decoding step, whatever follows it. */
  lemma {:induction false} BoundaryAfterComplete(a: Text, b: Text)
    requires Hold(a) == 0
    ensures Decode(a + b) == Decode(a) + Decode(b)
  {
    if a == [] {
      assert a + b == b;
    } else {
      if |a| < CharLen(a[0]) && StartsWithChar(a + b) {
        UnfinishedDangles(a, b);
      }
      SameStep(a, b);
      var rest := a[Width(a)..];
      assert Hold(rest) == 0 by {
        NothingDanglesInSuffix(a, Width(a));
      }
      BoundaryAfterComplete(rest, b);
      assert Decode(a + b) == [FirstRune(a)] + Decode(rest + b);
    }
  }

  lemma HeldStartsWithLead(b: Text)
    requires Hold(b) > 0
    ensures !IsContinuationByte(b[|b| - Hold(b)])
  {
  }

  /** Both cuts of `SplitValid` are decoding boundaries, whatever is read later. */
  lemma SplitIsBoundary(b: Text, later: Text)
    ensures var s := SplitValid(b);
            && Valid(s.text)
            && Decode(b + later) == Decode(s.text) + Decode(s.rest + later)
  {
    hide Decode, Encode, Hold, Dangling;
    if Hold(b) > 0 {
      var done, rest := b[..|b| - Hold(b)], b[|b| - Hold(b)..];
      DecodeValidIsReencoding(done);
      HeldStartsWithLead(b);
      assert b + later == done + (rest + later);
      BoundaryBeforeLead(done, rest + later);
    } else {
      DecodeValidIsReencoding(b);
      assert SplitValid(b).rest + later == later;
      BoundaryAfterComplete(b, later);
    }
  }

  // ---------------------------------------------------------------------------
  // The stream of reads
  // ---------------------------------------------------------------------------

  function Flatten<T>(parts: seq<seq<T>>): seq<T> {
    if parts == [] then [] else Flatten(parts[..|parts| - 1]) + parts[|parts| - 1]
  }

  /** The bytes carried over after the reads `chunks`. */
  function Held(chunks: seq<Text>): (held: Text)
    ensures |held| <= 3
  {
    if chunks == [] then []
    else SplitValid(Held(chunks[..|chunks| - 1]) + chunks[|chunks| - 1]).rest
  }

  /** The text emitted by each read. */
  function Emitted(chunks: seq<Text>): (texts: seq<Text>)
    ensures |texts| == |chunks|
  {
    if chunks == [] then []
    else
      var before := chunks[..|chunks| - 1];
      Emitted(before) + [SplitValid(Held(before) + chunks[|chunks| - 1]).text]
  }

  /** One more read: `done` has been emitted, `held` is carried over, and `raw` arrives. */
  lemma ReadStep(all: Text, done: Text, held: Text, raw: Text, later: Text)
    requires Valid(done)
    requires Decode(all + (raw + later)) == Decode(done) + Decode(held + (raw + later))
    ensures var s := SplitValid(held + raw);
            && Valid(done + s.text)
            && Decode(all + raw + later) == Decode(done + s.text) + Decode(s.rest + later)
  {
    hide *;
    var s := SplitValid(held + raw);
    SplitIsBoundary(held + raw, later);
    assert held + (raw + later) == (held + raw) + later;
    assert all + raw + later == all + (raw + later);
    ValidConcat(done, s.text);
    DecodeAfterValid(done, s.text);
  }

  lemma {:induction false} StreamInvariant(chunks: seq<Text>, later: Text)
    ensures Valid(Flatten(Emitted(chunks)))
    ensures Decode(Flatten(chunks) + later) == Decode(Flatten(Emitted(chunks))) + Decode(Held(chunks) + later)
  {
    if chunks == [] {
      assert Flatten(chunks) + later == later && Held(chunks) + later == later;
    } else {
      var before, raw := chunks[..|chunks| - 1], chunks[|chunks| - 1];
      StreamInvariant(before, raw + later);
      ReadStep(Flatten(before), Flatten(Emitted(before)), Held(before), raw, later);
      assert Emitted(chunks)[..|chunks| - 1] == Emitted(before);
    }
  }

  /** However a byte stream is cut into reads, the texts emitted so far followed by the
      decoding of what is held are the decoding of the whole stream at once. */
  lemma StreamingIsOneShot(chunks: seq<Text>)
    ensures Flatten(Emitted(chunks)) + DecodeValid(Held(chunks)) == DecodeValid(Flatten(chunks))
    ensures Valid(Flatten(Emitted(chunks)))
    ensures |Held(chunks)| <= 3
  {
    hide *;
    StreamInvariant(chunks, []);
    assert Flatten(chunks) + [] == Flatten(chunks) && Held(chunks) + [] == Held(chunks);
    var text, held := Flatten(Emitted(chunks)), Held(chunks);
    EncodeConcat(Decode(text), Decode(held));
    EncodeDecode(text);
    DecodeValidIsReencoding(held);
    DecodeValidIsReencoding(Flatten(chunks));
  }

  /** Every single emitted text is well-formed. */
  lemma {:induction false} EveryTextIsValid(chunks: seq<Text>, i: nat)
    requires i < |chunks|
    ensures Valid(Emitted(chunks)[i])
  {
    var before := chunks[..|chunks| - 1];
    if i < |before| {
      EveryTextIsValid(before, i);
    } else {
      SplitIsBoundary(Held(before) + chunks[|chunks| - 1], []);
    }
  }

  // ---------------------------------------------------------------------------
  // What is held back
  // ---------------------------------------------------------------------------

  /** `b` is one character of the grammar and nothing else. */
  predicate IsChar(b: Text) {
    b != [] && StartsWithChar(b) && |b| == CharLen(b[0])
  }

  /** `h` can still become a character. */
  ghost predicate CanComplete(h: Text) {
    exists more :: more != [] && IsChar(h + more)
  }

  /** Every genuine incomplete character at the end of a read is held back. */
  lemma GenuinePrefixIsHeld(b: Text, h: Text, more: Text)
    requires h != [] && more != [] && IsChar(h + more)
    ensures SplitValid(b + h).rest == h
  {
    var c := h + more;
    var d := b + h;
    assert forall i | 0 <= i < |h| :: d[|b| + i] == c[i];
    assert forall i | 0 < i < |h| :: IsContinuationByte(c[i]);
    assert Dangling(d, |h|);
    assert forall k | 0 < k < |h| :: !Dangling(d, k);
    assert d[|d| - |h|..] == h;
  }

  lemma CompletionExists(h: Text)
    requires 1 <= |h| <= 3 && |h| < CharLen(h[0])
    requires |h| >= 2 ==> SecondOk(h[0], h[1])
    requires |h| >= 3 ==> Tail(h[2])
    ensures CanComplete(h)
  {
    var second: Byte := if h[0] == 0xE0 then 0xA0 else if h[0] == 0xF0 then 0x90 else 0x80;
    var filler := [h[0], second, 0x80, 0x80];
    var more := filler[|h|..CharLen(h[0])];
    var c := h + more;
    forall i | 0 <= i < |c|
      ensures c[i] == if i < |h| then h[i] else filler[i]
    {
      if i < |h| {
        assert c[i] == h[i];
      } else {
        assert c[i] == more[i - |h|];
        SliceAt(filler, |h|, CharLen(h[0]), i - |h|);
      }
    }
    assert IsChar(c);
  }

  lemma SliceAt(b: Text, i: nat, j: nat, k: nat)
    requires i <= j <= |b| && i + k < j
    ensures b[i..j][k] == b[i + k]
  {
  }

  lemma CompletionNeedsPrefix(h: Text, more: Text)
    requires h != [] && IsChar(h + more)
    ensures CharLen(h[0]) != 0 && (|h| >= 2 ==> SecondOk(h[0], h[1]))
  {
    assert (h + more)[0] == h[0];
    assert |h| >= 2 ==> (h + more)[1] == h[1];
  }

  /** What is held back can still become a character exactly when its first byte is a
      lead byte of the grammar and its second byte, if it has one, may follow that lead. */
  lemma HeldIsGenuineIff(b: Text)
    requires SplitValid(b).rest != []
    ensures var h := SplitValid(b).rest;
            CanComplete(h) <==> CharLen(h[0]) != 0 && (|h| >= 2 ==> SecondOk(h[0], h[1]))
  {
    hide Decode, Encode, Valid, StartsWithChar;
    var h := SplitValid(b).rest;
    var k := Hold(b);
    assert Dangling(b, k);
    assert forall i | 0 <= i < k :: h[i] == b[|b| - k + i];
    if CharLen(h[0]) != 0 && (|h| >= 2 ==> SecondOk(h[0], h[1])) {
      CompletionExists(h);
    }
    if more :| more != [] && IsChar(h + more) {
      CompletionNeedsPrefix(h, more);
    }
  }

  lemma SplitOfOneByte(c: Byte)
    ensures SplitValid([c]) == if 0xC0 <= c <= 0xF7 then Split(DecodeValid([]), [c]) else Split(DecodeValid([c]), [])
  {
    hide DecodeValid, IsContinuationByte, LeadRuneLen;
    var b := [c];
    MaskRanges(c);
    assert b[..0] == [] && b[0..] == b;
    assert Dangling(b, 1) <==> 0xC0 <= c <= 0xF7;
  }

  /** Five bytes start no character and are held back all the same: their U+FFFD waits for the next read. */
  lemma HeldWithoutHope(c: Byte)
    ensures SplitValid([c]) == Split([], [c]) && !CanComplete([c])
            <==> c == 0xC0 || c == 0xC1 || c == 0xF5 || c == 0xF6 || c == 0xF7
  {
    hide SplitValid, CanComplete, SecondOk;
    SplitOfOneByte(c);
    if SplitValid([c]).rest != [] {
      HeldIsGenuineIff([c]);
    }
  }
}
