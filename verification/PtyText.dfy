/**
 The text a client puts together from its replay frames and its live frames, against the text
 the session emitted.
 */
module PtyText {
  import opened Utf8
  import opened Utf16
  import opened PtyDecoder
  import opened PtyStream
  import opened PtyResume
  import opened PtyReplay

  // ---------------------------------------------------------------------------
  // Live frames
  // ---------------------------------------------------------------------------

  predicate AllValid(texts: seq<Text>) {
    forall text | text in texts :: Valid(text)
  }

  predicate LiveValid(s: State) {
    forall k | k in s.links :: AllValid(s.links[k].Live())
  }

  lemma OfferKeepsValid(l: Link, text: Text)
    requires AllValid(l.Live()) && Valid(text)
    ensures AllValid(Offer(l, text).Live())
  {
    hide Valid;
    if |l.queue| < SUB_BUFFER {
      assert Offer(l, text).Live() == l.Live() + [text];
    }
  }

  lemma OnDataKeepsLiveValid(s: State, raw: Text)
    requires LiveValid(s)
    ensures LiveValid(OnData(s, raw))
  {
    SplitIsBoundary(s.partial + raw, []);
    hide Valid, AllValid, SplitValid, Trim, Units, Decode, Offer;
    var text := SplitValid(s.partial + raw).text;
    forall k | k in s.links
      ensures AllValid(Offer(s.links[k], text).Live())
    {
      OfferKeepsValid(s.links[k], text);
    }
  }

  lemma TakeKeepsLiveValid(s: State, key: nat)
    requires LiveValid(s)
    ensures LiveValid(Take(s, key))
  {
    hide Valid, AllValid;
    if key in s.links && s.links[key].queue != [] {
      var l, m := s.links[key], Take(s, key).links[key];
      assert m.Live() == l.Live();
    }
  }

  lemma StepKeepsLiveValid(s: State, a: Action)
    requires LiveValid(s)
    ensures LiveValid(Step(s, a))
  {
    hide Valid, AllValid, OnData, Take, Replay;
    match a
    case Read(raw) => OnDataKeepsLiveValid(s, raw);
    case Receive(key) => TakeKeepsLiveValid(s, key);
    case Attach(asked) => ConnectKeepsLiveValid(s, asked);
    case _ =>
  }

  lemma ConnectKeepsLiveValid(s: State, asked: int)
    requires LiveValid(s)
    ensures LiveValid(Connect(s, asked))
  {
    hide Valid, Replay;
    assert Connect(s, asked).links[s.nextSub].Live() == [];
  }

  lemma {:induction false} RunKeepsLiveValid(actions: seq<Action>)
    ensures LiveValid(Run(actions))
  {
    hide LiveValid, Step;
    if actions == [] {
      assert LiveValid(START) by {
        EmptyIsValid();
      }
    } else {
      RunKeepsLiveValid(actions[..|actions| - 1]);
      StepKeepsLiveValid(Run(actions[..|actions| - 1]), actions[|actions| - 1]);
    }
  }

  lemma EmptyIsValid()
    ensures LiveValid(START)
  {
  }

  /** Valid texts one after the other have the units of their runes. */
  lemma {:induction false} UnitsOfValid(texts: seq<Text>)
    requires AllValid(texts)
    ensures Valid(Flatten(texts)) && UnitsOf(texts) == Units(Decode(Flatten(texts)))
  {
    if texts == [] {
      NothingToDecode();
    } else {
      var init, last := texts[..|texts| - 1], texts[|texts| - 1];
      assert Flatten(texts) == Flatten(init) + last;
      hide Valid, Units, Decode;
      UnitsOfValid(init);
      assert last in texts;
      DecodeAfterValid(Flatten(init), last);
      ValidConcat(Flatten(init), last);
      UnitsConcat(Decode(Flatten(init)), Decode(last));
    }
  }

  // ---------------------------------------------------------------------------
  // Offsets between runes
  // ---------------------------------------------------------------------------

  lemma {:induction false} LastIsNotHigh(rs: seq<Rune>)
    ensures rs != [] ==> Units(rs) != [] && !IsHigh(Units(rs)[|Units(rs)| - 1])
  {
    if |rs| > 1 {
      LastIsNotHigh(rs[1..]);
    }
  }

  lemma FirstIsNotLow(rs: seq<Rune>)
    ensures rs != [] ==> Units(rs) != [] && !IsLow(Units(rs)[0])
  {
  }

  /** The place of a rune is never inside a pair. */
  lemma RuneIsNotInside(rs: seq<Rune>, i: nat)
    requires i <= |rs|
    ensures |Units(rs[..i])| <= |Units(rs)|
    ensures Units(rs)[|Units(rs[..i])|..] == Units(rs[i..])
    ensures !SplitsPair(Units(rs)[..|Units(rs[..i])|], Units(rs)[|Units(rs[..i])|..])
  {
    LastIsNotHigh(rs[..i]);
    UnitsConcat(rs[..i], rs[i..]);
    assert rs[..i] + rs[i..] == rs;
    hide Units;
    assert Units(rs)[..|Units(rs[..i])|] == Units(rs[..i]);
  }

  /** An offset that is not inside a pair is the place of a rune. */
  lemma {:induction false} OutsideIsRune(rs: seq<Rune>, p: nat) returns (i: nat)
    requires p <= |Units(rs)| && !SplitsPair(Units(rs)[..p], Units(rs)[p..])
    ensures i <= |rs| && |Units(rs[..i])| == p
  {
    if p == |Units(rs)| {
      assert rs[..|rs|] == rs;
      i := |rs|;
    } else {
      var n := |rs| - 1;
      var init := rs[..n];
      UnitsConcat(init, [rs[n]]);
      assert rs == init + [rs[n]];
      var m := |Units(init)|;
      hide Units, EncodeUnits;
      if p == m {
        i := n;
      } else if p < m {
        assert Units(rs)[..p] == Units(init)[..p] && Units(rs)[p] == Units(init)[p];
        i := OutsideIsRune(init, p);
        assert rs[..i] == init[..i];
      } else {
        InLastRune(rs, p);
        assert false;
      }
    }
  }

  lemma InLastRune(rs: seq<Rune>, p: nat)
    requires rs != [] && |Units(rs[..|rs| - 1])| < p < |Units(rs)|
    ensures SplitsPair(Units(rs)[..p], Units(rs)[p..])
  {
    var n := |rs| - 1;
    var init, last := rs[..n], EncodeUnits(rs[n]);
    UnitsConcat(init, [rs[n]]);
    assert rs == init + [rs[n]] && Units([rs[n]]) == last + Units([]) == last;
    var m := |Units(init)|;
    assert Units(rs)[p] == last[p - m] && Units(rs)[p - 1] == last[p - m - 1];
  }

  // ---------------------------------------------------------------------------
  // The client's text
  // ---------------------------------------------------------------------------

  /** `text` is the runes of `rs` from the one at offset `p` on. */
  ghost predicate IsTextFrom(rs: seq<Rune>, p: nat, text: Text) {
    exists i: nat :: i <= |rs| && |Units(rs[..i])| == p && text == Encode(rs[i..])
  }

  /** Units decoded up to a rune, and runes after it. */
  lemma ReplayThenLive(replay: seq<Unit>, live: seq<Rune>, rest: seq<Rune>)
    requires replay + Units(live) == Units(rest)
    ensures RunesOf(replay) + live == rest
  {
    FirstIsNotLow(live);
    assert live == [] ==> Units(live) == [];
    CutBetweenRunes(replay, Units(live));
    RunesOfUnits(rest, []);
    RunesOfUnits(live, []);
    hide *;
    assert Units(rest) + [] == Units(rest) && Units(live) + [] == Units(live);
    NoRunes();
    assert rest + [] == rest && live + [] == live;
  }

  lemma NoRunes()
    ensures RunesOf([]) == []
  {
  }

  lemma TextFromIff(rs: seq<Rune>, p: nat, replay: seq<Unit>, live: seq<Rune>, size: nat)
    requires size > 0 && p <= |Units(rs)| && replay + Units(live) == Units(rs)[p..]
    ensures IsTextFrom(rs, p, Joined(ChunkTexts(replay, size)) + Encode(live)) <==>
            !SplitsPair(Units(rs)[..p], Units(rs)[p..]) && SplitEdges(replay, size) == 0
  {
    ReplayTextIff(replay, size);
    hide Units, Encode, RunesOf, ChunkTexts, Joined, SplitEdges;
    var text := Joined(ChunkTexts(replay, size));
    forall i: nat | i <= |rs| && |Units(rs[..i])| == p
      ensures Encode(rs[i..]) == TextOfUnits(replay) + Encode(live)
      ensures !SplitsPair(Units(rs)[..p], Units(rs)[p..])
    {
      RuneIsNotInside(rs, i);
      ReplayThenLive(replay, live, rs[i..]);
      EncodeConcat(RunesOf(replay), live);
    }
    if IsTextFrom(rs, p, text + Encode(live)) {
      var i: nat :| i <= |rs| && |Units(rs[..i])| == p && text + Encode(live) == Encode(rs[i..]);
      SameSuffix(text, TextOfUnits(replay), Encode(live));
    }
    if !SplitsPair(Units(rs)[..p], Units(rs)[p..]) && SplitEdges(replay, size) == 0 {
      var i := OutsideIsRune(rs, p);
      assert text + Encode(live) == Encode(rs[i..]);
    }
  }

  lemma SameSuffix(a: Text, b: Text, c: Text)
    requires a + c == b + c
    ensures a == b
  {
    assert |a + c| == |b + c|;
    assert a == (a + c)[..|a|] && b == (b + c)[..|b|];
  }

  /**
   While it is subscribed, what a client reads off its replay frames and its live frames is the
   emitted text from its offset to the present, exactly when that offset is not inside a
   surrogate pair and no chunk edge splits one. Its offset can come to lie inside a pair
   because it asked for it, or because trimming the buffer cut one.
   */
  lemma ClientTextIff(actions: seq<Action>, key: nat)
    requires key in Run(actions).subs
    ensures key in Run(actions).links
    ensures var l, rs := Run(actions).links[key], Decode(Flatten(Emitted(Run(actions).chunks)));
            && 0 <= l.Base() <= |Units(rs)|
            && (IsTextFrom(rs, l.Base(), Joined(ChunkTexts(l.replay, BUFFER_CHUNK)) + Flatten(l.Live())) <==>
                !SplitsPair(Units(rs)[..l.Base()], Units(rs)[l.Base()..]) && SplitEdges(l.replay, BUFFER_CHUNK) == 0)
  {
    hide Run, Units, Decode, Encode, Emitted, Flatten, UnitsOf, Window, IsTextFrom, ChunkTexts, Joined, SplitEdges;
    RunKeepsInv(actions);
    RunKeepsLiveValid(actions);
    var s := Run(actions);
    var l, rs := s.links[key], Decode(Flatten(Emitted(s.chunks)));
    HistoryOfTexts(s.chunks);
    UnitsOfValid(l.Live());
    EncodeDecode(Flatten(l.Live()));
    TextFromIff(rs, l.Base(), l.replay, Decode(Flatten(l.Live())), BUFFER_CHUNK);
  }

  // ---------------------------------------------------------------------------
  // Subscribers that were cut off or left
  // ---------------------------------------------------------------------------

  /** The output stood at the end of a rune when each subscriber was attached. */
  ghost predicate EndsClean(s: State) {
    forall k | k in s.links ::
      var h, end := History(s.chunks), s.links[k].end;
      end <= |h| && !SplitsPair(h[..end], h[end..])
  }

  lemma GrowsClean(h: seq<Unit>, more: seq<Unit>, end: nat)
    requires end <= |h| && !SplitsPair(h[..end], h[end..])
    requires h != [] ==> !IsHigh(h[|h| - 1])
    ensures !SplitsPair((h + more)[..end], (h + more)[end..])
  {
    assert (h + more)[..end] == h[..end];
    if end < |h| {
      assert (h + more)[end] == h[end];
    }
  }

  lemma HistoryEndsClean(chunks: seq<Text>)
    ensures History(chunks) != [] ==> !IsHigh(History(chunks)[|History(chunks)| - 1])
  {
    HistoryOfTexts(chunks);
    LastIsNotHigh(Decode(Flatten(Emitted(chunks))));
    hide *;
    NoUnitsAtAll();
  }

  lemma NoUnitsAtAll()
    ensures Units([]) == []
  {
  }

  lemma OnDataKeepsEachEnd(s: State, raw: Text)
    ensures OnData(s, raw).links.Keys == s.links.Keys
    ensures forall k | k in s.links :: OnData(s, raw).links[k].end == s.links[k].end
  {
    hide SplitValid, Trim, Units, Decode;
  }

  lemma OnDataKeepsEnds(s: State, raw: Text)
    requires Window(s) && EndsClean(s)
    ensures EndsClean(OnData(s, raw))
  {
    OnDataKeepsWindow(s, raw);
    OnDataKeepsEachEnd(s, raw);
    HistoryEndsClean(s.chunks);
    hide History, OnData, NewUnits, Window, SplitsPair, IsHigh;
    var t, h := OnData(s, raw), History(s.chunks);
    forall k | k in t.links
      ensures var end := t.links[k].end;
              end <= |History(t.chunks)| && !SplitsPair(History(t.chunks)[..end], History(t.chunks)[end..])
    {
      assert k in s.links;
      GrowsClean(h, NewUnits(s, raw), s.links[k].end);
    }
  }

  lemma StepKeepsEnds(s: State, a: Action)
    requires Inv(s) && EndsClean(s)
    ensures EndsClean(Step(s, a))
  {
    if a.Read? {
      hide OnData, EndsClean, Window, Linked, Slices;
      OnDataKeepsEnds(s, a.raw);
    } else if a.Attach? {
      hide Slices, Linked, Replay, WindowOn;
      ConnectKeepsEnds(s, a.asked);
    } else {
      hide History, Slices, Linked, Window, Replay, OnData, Connect, SplitsPair;
    }
  }

  lemma ConnectKeepsEnds(s: State, asked: int)
    requires Window(s) && EndsClean(s)
    ensures EndsClean(Connect(s, asked))
  {
    hide History, Replay;
  }

  lemma {:induction false} RunKeepsEnds(actions: seq<Action>)
    ensures EndsClean(Run(actions))
  {
    hide EndsClean, Step, Inv;
    if actions == [] {
      NobodyYet();
    } else {
      RunKeepsEnds(actions[..|actions| - 1]);
      RunKeepsInv(actions[..|actions| - 1]);
      StepKeepsEnds(Run(actions[..|actions| - 1]), actions[|actions| - 1]);
    }
  }

  lemma NobodyYet()
    ensures EndsClean(START)
  {
  }

  /** `text` is the runes of `rs` from the one at offset `p` up to offset `e`. */
  ghost predicate IsTextBetween(rs: seq<Rune>, p: nat, e: nat, text: Text) {
    exists j: nat :: j <= |rs| && |Units(rs[..j])| == e && IsTextFrom(rs[..j], p, text)
  }

  /** Units that end with runes end where a rune does. */
  lemma SliceEndsClean(h: seq<Unit>, end: nat, live: seq<Rune>)
    requires end + |Units(live)| <= |h| && h[end..end + |Units(live)|] == Units(live)
    requires !SplitsPair(h[..end], h[end..])
    ensures !SplitsPair(h[..end + |Units(live)|], h[end + |Units(live)|..])
  {
    LastIsNotHigh(live);
    hide Units;
    var e := end + |Units(live)|;
    if live != [] {
      assert h[e - 1] == h[end..e][|Units(live)| - 1];
    } else {
      NoUnitsAtAll();
    }
  }

  lemma TextBetweenIff(rs: seq<Rune>, p: nat, e: nat, replay: seq<Unit>, live: seq<Rune>, size: nat)
    requires size > 0 && p <= e <= |Units(rs)| && replay + Units(live) == Units(rs)[p..e]
    requires !SplitsPair(Units(rs)[..e], Units(rs)[e..])
    ensures IsTextBetween(rs, p, e, Joined(ChunkTexts(replay, size)) + Encode(live)) <==>
            !SplitsPair(Units(rs)[..p], Units(rs)[p..]) && SplitEdges(replay, size) == 0
  {
    var text := Joined(ChunkTexts(replay, size)) + Encode(live);
    hide *;
    forall j: nat | j <= |rs| && |Units(rs[..j])| == e
      ensures IsTextFrom(rs[..j], p, text) <==>
              !SplitsPair(Units(rs)[..p], Units(rs)[p..]) && SplitEdges(replay, size) == 0
    {
      TextUpTo(rs, p, j, replay, live, size);
    }
    var j := OutsideIsRune(rs, e);
    BetweenAt(rs, p, e, text, j);
  }

  lemma TextUpTo(rs: seq<Rune>, p: nat, j: nat, replay: seq<Unit>, live: seq<Rune>, size: nat)
    requires size > 0 && j <= |rs| && p <= |Units(rs[..j])| <= |Units(rs)|
    requires replay + Units(live) == Units(rs)[p..|Units(rs[..j])|]
    ensures IsTextFrom(rs[..j], p, Joined(ChunkTexts(replay, size)) + Encode(live)) <==>
            !SplitsPair(Units(rs)[..p], Units(rs)[p..]) && SplitEdges(replay, size) == 0
  {
    var e := |Units(rs[..j])|;
    RuneIsNotInside(rs, j);
    UnitsConcat(rs[..j], rs[j..]);
    hide *;
    assert rs[..j] + rs[j..] == rs;
    assert Units(rs[..j]) == Units(rs)[..e];
    assert Units(rs)[..e][p..] == Units(rs)[p..e];
    TextFromIff(rs[..j], p, replay, live, size);
    SamePairs(Units(rs), p, e);
  }

  lemma SamePairs(h: seq<Unit>, p: nat, e: nat)
    requires p <= e <= |h| && !SplitsPair(h[..e], h[e..])
    ensures SplitsPair(h[..e][..p], h[..e][p..]) <==> SplitsPair(h[..p], h[p..])
  {
    assert h[..e][..p] == h[..p];
  }

  /** The end fixes the rune it stands at. */
  lemma BetweenAt(rs: seq<Rune>, p: nat, e: nat, text: Text, j: nat)
    requires j <= |rs| && |Units(rs[..j])| == e
    requires forall i: nat | i <= |rs| && |Units(rs[..i])| == e ::
               IsTextFrom(rs[..i], p, text) <==> IsTextFrom(rs[..j], p, text)
    ensures IsTextBetween(rs, p, e, text) <==> IsTextFrom(rs[..j], p, text)
  {
    hide IsTextFrom, Units;
  }

  /**
   For every subscriber there ever was, also one that was cut off or left: what it was given is
   the emitted text from its offset to where its slice ends, exactly under the same condition.
   */
  lemma GivenTextIff(actions: seq<Action>, key: nat)
    requires key in Run(actions).links
    ensures var l, rs := Run(actions).links[key], Decode(Flatten(Emitted(Run(actions).chunks)));
            && 0 <= l.Base() <= l.Base() + |l.Stream()| <= |Units(rs)|
            && (IsTextBetween(rs, l.Base(), l.Base() + |l.Stream()|,
                              Joined(ChunkTexts(l.replay, BUFFER_CHUNK)) + Flatten(l.Live())) <==>
                !SplitsPair(Units(rs)[..l.Base()], Units(rs)[l.Base()..]) && SplitEdges(l.replay, BUFFER_CHUNK) == 0)
  {
    hide Run, Units, Decode, Encode, Emitted, Flatten, UnitsOf, Window, IsTextBetween, ChunkTexts, Joined, SplitEdges;
    RunKeepsInv(actions);
    RunKeepsLiveValid(actions);
    RunKeepsEnds(actions);
    var s := Run(actions);
    var l, rs := s.links[key], Decode(Flatten(Emitted(s.chunks)));
    var live, e := Decode(Flatten(l.Live())), l.Base() + |l.Stream()|;
    HistoryOfTexts(s.chunks);
    UnitsOfValid(l.Live());
    EncodeDecode(Flatten(l.Live()));
    assert Units(rs)[l.Base()..e][|l.replay|..] == Units(rs)[l.end..e];
    SliceEndsClean(Units(rs), l.end, live);
    TextBetweenIff(rs, l.Base(), e, l.replay, live, BUFFER_CHUNK);
  }

  /** A client that asks for the offset inside the only character so far cannot read its text. */
  lemma OffsetInsideAPair(raw: Text)
    requires raw == [0xF0, 0x9F, 0x98, 0x80]
    ensures var s := Run([Read(raw), Attach(1)]);
            && 0 in s.subs && 0 in s.links && s.links[0].Base() == 1
            && !IsTextFrom(Decode(Flatten(Emitted(s.chunks))), 1,
                           Joined(ChunkTexts(s.links[0].replay, BUFFER_CHUNK)) + Flatten(s.links[0].Live()))
  {
    var actions := [Read(raw), Attach(1)];
    ReadThenAttach(raw, 1);
    FirstRead(raw);
    OneCharacter(raw);
    InsideIsReplayed(OnData(START, raw));
    hide *;
    ClientTextIff(actions, 0);
    InsideFirst(Decode(Flatten(Emitted(Run(actions).chunks))));
  }

  lemma InsideFirst(rs: seq<Rune>)
    requires Units(rs) == [0xD83D, 0xDE00]
    ensures SplitsPair(Units(rs)[..1], Units(rs)[1..])
  {
    hide Units;
    assert Units(rs)[..1] == [0xD83D] && Units(rs)[1..] == [0xDE00];
  }

  lemma ReadThenAttach(raw: Text, asked: int)
    ensures Run([Read(raw), Attach(asked)]) == Connect(OnData(START, raw), asked)
  {
    hide OnData, Connect;
    assert [Read(raw)][..0] == [] && [Read(raw), Attach(asked)][..1] == [Read(raw)];
    assert RunFrom(START, [Read(raw)]) == Step(START, Read(raw));
  }

  lemma InsideIsReplayed(s: State)
    requires s.buffer == [0xD83D, 0xDE00] && s.cursor == 2 && s.bufCur == 0 && s.nextSub == 0
    ensures var t := Connect(s, 1);
            && 0 in t.subs && 0 in t.links && t.links[0].replay == [0xDE00] && t.links[0].Base() == 1
            && t.chunks == s.chunks
  {
  }

  lemma OneCharacter(raw: Text)
    requires raw == [0xF0, 0x9F, 0x98, 0x80]
    ensures Decode(raw) == [0x1F600] && Units([0x1F600]) == [0xD83D, 0xDE00]
    ensures Hold(raw) == 0 && DecodeValid(raw) == raw
  {
    assert Width(raw) == 4 && FirstRune(raw) == 0x1F600;
    assert raw[4..] == [];
    assert EncodeUnits(0x1F600) == [0xD83D, 0xDE00];
    assert Units([0x1F600]) == EncodeUnits(0x1F600) + Units([0x1F600][1..]);
  }

  lemma FirstRead(raw: Text)
    requires raw == [0xF0, 0x9F, 0x98, 0x80]
    ensures var s := OnData(START, raw);
            && s.buffer == [0xD83D, 0xDE00] && s.cursor == 2 && s.bufCur == 0 && s.subs == {} && s.nextSub == 0
            && Flatten(Emitted(s.chunks)) == raw
  {
    OneCharacter(raw);
    hide Units, Decode, Hold, DecodeValid;
    assert START.partial + raw == raw && SplitValid(raw) == Split(raw, []);
    assert START.chunks + [raw] == [raw] && [raw][..0] == [];
    assert Held([]) == [] && [] + raw == raw;
    assert Emitted([raw]) == Emitted([]) + [raw];
    assert Flatten([raw]) == Flatten([]) + raw;
  }
}
