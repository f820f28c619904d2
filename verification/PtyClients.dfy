/**
 What attaching, taking, closing and exiting come to for the clients of a PTY session, told by
 the actions of a run: what was read, who is subscribed until when, and what each was given.
 */
module PtyClients {
  import opened Utf8
  import opened Utf16
  import opened PtyDecoder
  import opened PtyStream
  import PtyResume

  // ---------------------------------------------------------------------------
  // What was read
  // ---------------------------------------------------------------------------

  /** The raw reads of a run: the read loop stops at the exit. */
  function Reads(actions: seq<Action>): seq<Text> {
    if actions == [] then []
    else
      var n := |actions| - 1;
      Reads(actions[..n]) + if actions[n].Read? && Exit !in actions[..n] then [actions[n].raw] else []
  }

  lemma HistoryInStep(s: State, a: Action)
    ensures Step(s, a).exited <==> s.exited || a.Exit?
    ensures Step(s, a).chunks == s.chunks + if a.Read? && !s.exited then [a.raw] else []
  {
    hide SplitValid, Units, Decode, Trim, Fanout, Kept, Replay;
  }

  /** Every read counts, in order: the history is that of the bytes the process wrote. */
  lemma {:induction false} ChunksAreReads(actions: seq<Action>)
    ensures Run(actions).chunks == Reads(actions)
    ensures Run(actions).exited <==> Exit in actions
  {
    if actions != [] {
      hide Step;
      var n := |actions| - 1;
      ChunksAreReads(actions[..n]);
      HistoryInStep(Run(actions[..n]), actions[n]);
      assert actions == actions[..n] + [actions[n]];
    }
  }

  // ---------------------------------------------------------------------------
  // Attaching
  // ---------------------------------------------------------------------------

  lemma OneMore(actions: seq<Action>, a: Action)
    ensures Run(actions + [a]) == Step(Run(actions), a)
  {
    assert (actions + [a])[..|actions|] == actions;
  }

  /**
   A client that attaches gets a channel nobody had, open and empty, and the output from where it
   asked to start, as far as the window has it; the others keep theirs as they are.
   */
  lemma AttachGivesReplay(actions: seq<Action>, asked: int)
    ensures var s, t, h := Run(actions), Run(actions + [Attach(asked)]), History(Reads(actions));
            var key := s.nextSub;
            && key !in s.links && key in t.links && t.links == s.links[key := t.links[key]]
            && t.subs == s.subs + {key} && t.nextSub == key + 1
            && s.bufCur <= StartOf(asked, s.bufCur, |h|) <= |h|
            && t.links[key] == Link(asked, s.bufCur, |h|, h[StartOf(asked, s.bufCur, |h|)..], [], [], false)
  {
    OneMore(actions, Attach(asked));
    ChunksAreReads(actions);
    RunKeepsInv(actions);
    PtyResume.ReplayIsSuffix(actions, asked);
    hide Run, History, Replay, Reads, Held, Slices;
  }

  // ---------------------------------------------------------------------------
  // Leaving
  // ---------------------------------------------------------------------------

  /** The read completes some text. */
  predicate Emits(s: State, raw: Text) {
    SplitValid(s.partial + raw).text != []
  }

  /** The subscription of `key` ends: its client closes, the session exits, or output finds 256 frames waiting. */
  predicate Ends(s: State, a: Action, key: nat) {
    match a
    case Detach(k) => k == key
    case Exit => !s.exited
    case Read(raw) => !s.exited && Emits(s, raw) && key in s.links && |s.links[key].queue| == 256
    case _ => false
  }

  lemma EndsInStep(s: State, a: Action, key: nat)
    requires Linked(s) && key in s.subs
    ensures var t := Step(s, a);
            && key in t.links && (key in t.subs <==> !Ends(s, a, key))
            && (Ends(s, a, key) ==> t.links[key] == s.links[key].(closed := true))
  {
    hide SplitValid, Units, Decode, Trim, Replay;
  }

  lemma ClosedInStep(s: State, a: Action, key: nat)
    requires Linked(s) && key in s.links && s.links[key].closed
    ensures var t := Step(s, a);
            && key in t.links && t.links[key].closed && t.links[key].Live() == s.links[key].Live()
  {
    hide SplitValid, Units, Decode, Trim, Replay;
  }

  lemma OneFewer(first: seq<Action>, later: seq<Action>)
    requires later != []
    ensures var n := |later| - 1;
            first + later == first + later[..n] + [later[n]]
  {
  }

  lemma RunIsLinked(actions: seq<Action>)
    ensures Linked(Run(actions))
  {
    hide Run, Linked, Window, Slices;
    RunKeepsInv(actions);
  }

  /** A closed channel stays closed, with the frames it has. */
  lemma {:induction false} ClosedStays(first: seq<Action>, later: seq<Action>, key: nat)
    requires key in Run(first).links && Run(first).links[key].closed
    ensures var s, t := Run(first), Run(first + later);
            && key in t.links && t.links[key].closed && t.links[key].Live() == s.links[key].Live() && key !in t.subs
  {
    hide Run, Step;
    RunIsLinked(first + later);
    if later == [] {
      assert first + later == first;
    } else {
      var n := |later| - 1;
      OneFewer(first, later);
      OneMore(first + later[..n], later[n]);
      ClosedStays(first, later[..n], key);
      RunIsLinked(first + later[..n]);
      ClosedInStep(Run(first + later[..n]), later[n], key);
    }
  }

  /** Some action of `later` ends the subscription of `key`. */
  ghost predicate EndedIn(first: seq<Action>, later: seq<Action>, key: nat) {
    exists k: nat :: k < |later| && Ends(Run(first + later[..k]), later[k], key)
  }

  lemma EndedInMore(first: seq<Action>, later: seq<Action>, key: nat)
    requires later != []
    ensures var n := |later| - 1;
            EndedIn(first, later, key) <==>
              EndedIn(first, later[..n], key) || Ends(Run(first + later[..n]), later[n], key)
  {
    hide Run, Ends;
    var n := |later| - 1;
    assert forall k | 0 <= k <= n :: later[..n][..k] == later[..k];
    if EndedIn(first, later[..n], key) {
      var k: nat :| k < n && Ends(Run(first + later[..n][..k]), later[..n][k], key);
      assert Ends(Run(first + later[..k]), later[k], key);
    }
    if EndedIn(first, later, key) && !Ends(Run(first + later[..n]), later[n], key) {
      var k: nat :| k < |later| && Ends(Run(first + later[..k]), later[k], key);
      assert k < n && Ends(Run(first + later[..n][..k]), later[..n][k], key);
    }
  }

  /** A client stays subscribed exactly until it closes, the session exits, or output finds its queue full. */
  lemma {:induction false} SubscribedUntil(first: seq<Action>, later: seq<Action>, key: nat)
    requires key in Run(first).subs
    ensures key in Run(first + later).subs <==> !EndedIn(first, later, key)
    ensures key in Run(first + later).links
  {
    hide Run, Step, Ends, Linked;
    RunIsLinked(first);
    if later == [] {
      assert first + later == first;
      assert key in Run(first).links by {
        LinkedHas(Run(first), key);
      }
    } else {
      var n := |later| - 1;
      var s := Run(first + later[..n]);
      OneFewer(first, later);
      OneMore(first + later[..n], later[n]);
      SubscribedUntil(first, later[..n], key);
      EndedInMore(first, later, key);
      RunIsLinked(first + later[..n]);
      hide EndedIn;
      LinkedHas(s, key);
      if key in s.subs {
        EndsInStep(s, later[n], key);
      } else {
        ClosedInStep(s, later[n], key);
        RunIsLinked(first + later);
        LinkedHas(Run(first + later), key);
      }
    }
  }

  lemma LinkedHas(s: State, key: nat)
    requires Linked(s)
    ensures key in s.subs ==> key in s.links
    ensures key in s.links ==> (s.links[key].closed <==> key !in s.subs)
  {
  }

  /**
   Closing ends the subscription for good: the channel is closed with what it holds and gets
   nothing more, and nobody else notices.
   */
  lemma DetachCloses(first: seq<Action>, key: nat, later: seq<Action>)
    requires key in Run(first).subs
    ensures var s, t := Run(first), Run(first + [Detach(key)]);
            && key in s.links && t.subs == s.subs - {key} && t.buffer == s.buffer && t.cursor == s.cursor
            && t.links == s.links[key := s.links[key].(closed := true)]
    ensures var s, t := Run(first), Run(first + [Detach(key)] + later);
            && key !in t.subs && key in t.links && t.links[key].closed
            && key in s.links && t.links[key].Live() == s.links[key].Live()
  {
    RunIsLinked(first);
    OneMore(first, Detach(key));
    hide Run;
    ClosedStays(first + [Detach(key)], later, key);
  }

  // ---------------------------------------------------------------------------
  // Taking
  // ---------------------------------------------------------------------------

  /** Taking moves the frame that waits longest, and nothing else. */
  lemma ReceiveTakesOldest(actions: seq<Action>, key: nat)
    requires key in Run(actions).links && Run(actions).links[key].queue != []
    ensures var s, t := Run(actions), Run(actions + [Receive(key)]);
            && t.links.Keys == s.links.Keys && t.subs == s.subs && t.buffer == s.buffer && t.cursor == s.cursor
            && (forall k | k in s.links && k != key :: t.links[k] == s.links[k])
            && var l, m := s.links[key], t.links[key];
               && l.queue == [l.queue[0]] + m.queue && m.taken == l.taken + [l.queue[0]]
               && m.closed == l.closed && m.replay == l.replay
  {
    OneMore(actions, Receive(key));
    hide Run;
  }
}
