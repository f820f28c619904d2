/**
 What a client of a PTY session can rely on, for every interleaving: the buffer holds the
 newest output, a subscriber sees one slice of it without gap or repetition, and a client
 that resumes where it stopped misses nothing that is still retained.
 */
module PtyResume {
  import opened Utf8
  import opened Utf16
  import opened PtyDecoder
  import opened PtyStream

  // ---------------------------------------------------------------------------
  // The window and the decoded stream
  // ---------------------------------------------------------------------------

  lemma {:induction false} HistoryOfTexts(chunks: seq<Text>)
    ensures History(chunks) == Units(Decode(Flatten(Emitted(chunks))))
  {
    hide Decode, Units, SplitValid, Valid;
    if chunks == [] {
      NothingToEmit();
    } else {
      var before, raw := chunks[..|chunks| - 1], chunks[|chunks| - 1];
      var text := SplitValid(Held(before) + raw).text;
      assert chunks == before + [raw];
      HistoryOfTexts(before);
      HistoryGrows(before, raw);
      assert Flatten(Emitted(chunks)) == Flatten(Emitted(before)) + text by {
        assert Emitted(chunks)[..|chunks| - 1] == Emitted(before);
      }
      StreamingIsOneShot(before);
      DecodeAfterValid(Flatten(Emitted(before)), text);
      UnitsConcat(Decode(Flatten(Emitted(before))), Decode(text));
    }
  }

  /** The history is the UTF-16 form of the whole byte stream, but for the bytes still held. */
  lemma HistoryIsOneShot(chunks: seq<Text>)
    ensures History(chunks) + Units(Decode(Held(chunks))) == Units(Decode(Flatten(chunks)))
  {
    hide *;
    StreamInvariant(chunks, []);
    assert Flatten(chunks) + [] == Flatten(chunks) && Held(chunks) + [] == Held(chunks);
    UnitsConcat(Decode(Flatten(Emitted(chunks))), Decode(Held(chunks)));
    HistoryOfTexts(chunks);
  }

  /** After every run, the buffer is the newest output, up to the limit, and the cursor counts all of it. */
  lemma BufferIsNewestOutput(actions: seq<Action>)
    ensures var s := Run(actions);
            var output := Units(Decode(Flatten(Emitted(s.chunks))));
            && s.cursor == |output| == s.bufCur + |s.buffer|
            && |s.buffer| == (if s.cursor < BUFFER_LIMIT then s.cursor else BUFFER_LIMIT)
            && s.buffer == output[|output| - |s.buffer|..]
            && output + Units(Decode(s.partial)) == Units(Decode(Flatten(s.chunks)))
            && |s.partial| <= 3
  {
    hide Units, Decode, History, Slices, Linked, Run;
    RunKeepsInv(actions);
    HistoryOfTexts(Run(actions).chunks);
    HistoryIsOneShot(Run(actions).chunks);
  }

  // ---------------------------------------------------------------------------
  // One subscriber
  // ---------------------------------------------------------------------------

  /** Replay and live frames together are one slice of the history, up to the present while subscribed. */
  lemma SubscriberSeesOneSlice(actions: seq<Action>, key: nat)
    requires key in Run(actions).links
    ensures var s, l := Run(actions), Run(actions).links[key];
            var h, from := History(s.chunks), StartOf(l.asked, l.oldest, l.end);
            && 0 <= from <= l.end
            && from + |l.replay + UnitsOf(l.taken + l.queue)| <= |h|
            && l.replay + UnitsOf(l.taken + l.queue) == h[from..from + |l.replay + UnitsOf(l.taken + l.queue)|]
            && (key in s.subs ==> l.replay + UnitsOf(l.taken + l.queue) == h[from..])
            && (key in s.subs <==> !l.closed)
  {
    hide History, UnitsOf, Run, Window;
    RunKeepsInv(actions);
  }

  /** Output cuts a subscriber off only when its queue is full, and leaves what it was given as it was. */
  lemma CutOffOnlyWhenFull(actions: seq<Action>, raw: Text, key: nat)
    ensures var s, t := Run(actions), Step(Run(actions), Read(raw));
            key in s.subs && key !in t.subs ==>
              && key in s.links && |s.links[key].queue| == SUB_BUFFER
              && key in t.links && t.links[key].Stream() == s.links[key].Stream()
  {
    hide History, UnitsOf, Run, Window, Slices, SplitValid, Trim, Units;
    RunKeepsInv(actions);
  }

  /** A closed channel stays closed and gets no further frame. */
  lemma ClosedIsFinal(actions: seq<Action>, a: Action, key: nat)
    requires key in Run(actions).links && Run(actions).links[key].closed
    ensures var s, t := Run(actions), Step(Run(actions), a);
            key in t.links && t.links[key].closed && t.links[key].Live() == s.links[key].Live()
  {
    hide History, UnitsOf, Run, Window, Slices, SplitValid, Trim, Units;
    RunKeepsInv(actions);
  }

  // ---------------------------------------------------------------------------
  // Resuming
  // ---------------------------------------------------------------------------

  lemma {:induction false} UnitsOfAppend(texts: seq<Text>, more: seq<Text>)
    ensures UnitsOf(texts + more) == UnitsOf(texts) + UnitsOf(more)
  {
    hide Units, Decode;
    if more == [] {
      assert texts + more == texts;
    } else {
      var all := texts + more;
      assert all[..|all| - 1] == texts + more[..|more| - 1];
      UnitsOfAppend(texts, more[..|more| - 1]);
    }
  }

  /** Where a client that read the control frame and the frames it took so far resumes. */
  function ResumePoint(l: Link): nat {
    l.end + |UnitsOf(l.taken)|
  }

  lemma TakenIsSlice(l: Link, h: seq<Unit>)
    requires Contiguous(l, h)
    ensures l.Base() <= ResumePoint(l) <= |h|
    ensures l.replay + UnitsOf(l.taken) == h[l.Base()..ResumePoint(l)]
  {
    UnitsOfAppend(l.taken, l.queue);
    var seen := l.replay + UnitsOf(l.taken);
    assert l.Stream() == seen + UnitsOf(l.queue);
    assert seen == l.Stream()[..|seen|];
  }

  /** Whatever offset is asked for, the replay is the end of the output, from inside the window. */
  lemma ReplayIsSuffix(actions: seq<Action>, asked: int)
    ensures var s, h := Run(actions), History(Run(actions).chunks);
            && s.bufCur <= StartOf(asked, s.bufCur, s.cursor) <= s.cursor == |h|
            && Replay(s, asked) == h[StartOf(asked, s.bufCur, s.cursor)..]
  {
    hide History, Held, Run, Linked, Slices;
    RunKeepsInv(actions);
  }

  /**
   A client may reconnect at any time with the cursor it was told plus the UTF-16 length
   of what it took since. What it saw before and what is replayed now are together the
   output from where it first started up to the present, exactly when the window has not
   moved past its resume point; otherwise it misses precisely what the window dropped.
   */
  lemma ResumingMissesNothingRetained(actions: seq<Action>, key: nat)
    requires key in Run(actions).links
    ensures var s, l := Run(actions), Run(actions).links[key];
            var h, seen, now := History(s.chunks), l.replay + UnitsOf(l.taken), Replay(s, ResumePoint(l));
            && 0 <= l.Base() <= ResumePoint(l) <= s.cursor == |h| && s.bufCur <= s.cursor
            && seen == h[l.Base()..ResumePoint(l)]
            && now == h[if ResumePoint(l) < s.bufCur then s.bufCur else ResumePoint(l)..]
            && (seen + now == h[l.Base()..] <==> ResumePoint(l) >= s.bufCur)
  {
    hide History, UnitsOf, Run, Replay, Linked;
    RunKeepsInv(actions);
    var s, l := Run(actions), Run(actions).links[key];
    var h, p := History(s.chunks), ResumePoint(l);
    TakenIsSlice(l, h);
    ReplayIsSuffix(actions, p);
    var seen, now := l.replay + UnitsOf(l.taken), Replay(s, p);
    if p >= s.bufCur {
      assert h[l.Base()..p] + h[p..] == h[l.Base()..];
    } else {
      assert |seen + now| < |h[l.Base()..]|;
    }
  }

  // ---------------------------------------------------------------------------
  // Exit
  // ---------------------------------------------------------------------------

  lemma {:induction false} RunInParts(s: State, first: seq<Action>, second: seq<Action>)
    ensures RunFrom(s, first + second) == RunFrom(RunFrom(s, first), second)
  {
    hide Step;
    if second == [] {
      assert first + second == first;
    } else {
      var all := first + second;
      assert all[..|all| - 1] == first + second[..|second| - 1];
      RunInParts(s, first, second[..|second| - 1]);
    }
  }

  /** `key` was attached after the exit and nobody closed it, or before it. */
  predicate ClosedIffBefore(t: State, key: nat, count: nat) {
    && t.exited
    && count <= t.nextSub
    && Linked(t)
    && (key in t.links ==> (t.links[key].closed <==> key < count))
  }

  lemma {:induction false} AfterExit(s: State, key: nat, later: seq<Action>)
    requires Linked(s) && s.exited && s.subs == {}
    requires Detach(key) !in later
    ensures ClosedIffBefore(RunFrom(s, later), key, s.nextSub)
  {
    hide OnData;
    if later != [] {
      var before, a := later[..|later| - 1], later[|later| - 1];
      AfterExit(s, key, before);
      assert a in later;
    }
  }

  /**
   The exit closes every channel that was attached before it. One attached later, by a
   caller that had looked the session up in time, is closed by nobody but its own client.
   */
  lemma ExitClosesWhatWasAttached(first: seq<Action>, later: seq<Action>, key: nat)
    ensures var s, t := Run(first), Run(first + [Exit] + later);
            !s.exited && Detach(key) !in later && key in t.links ==>
              (t.links[key].closed <==> key < s.nextSub)
  {
    RunKeepsInv(first);
    var s, t := Run(first), Step(Run(first), Exit);
    assert RunFrom(START, first + [Exit]) == t by {
      assert (first + [Exit])[..|first|] == first;
    }
    RunInParts(START, first + [Exit], later);
    if !s.exited && Detach(key) !in later {
      AfterExit(t, key, later);
    }
  }

  /** Such a channel exists: attach right after the exit. */
  lemma ChannelOpenForEver()
    ensures var s := Run([Exit, Attach(0)]);
            s.exited && 0 in s.links && !s.links[0].closed
  {
    var s0 := OnExit(START);
    assert [Exit, Attach(0)][..1] == [Exit] && [Exit][..0] == [];
    assert RunFrom(START, [Exit]) == s0;
  }
}
