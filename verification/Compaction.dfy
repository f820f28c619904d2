/** The engine's two walks over a session's messages: pruning tool outputs, and choosing the tail to keep. */
module Compaction {
  import opened Pruning

  class Session {
    var msgs: seq<Message>

    constructor (history: seq<Message>)
      ensures msgs == history
    {
      msgs := history;
    }

    /** Walks from the newest message to the oldest and collects the outputs that may go. */
    method Collect() returns (cands: seq<Place>)
      ensures cands == Candidates(msgs, 0)
    {
      cands := [];
      var turns, i := 0, |msgs|;
      while i > 0
        invariant 0 <= i <= |msgs| && turns == Turns(msgs, i) && cands == Candidates(msgs, i)
        invariant forall k | i <= k < |msgs| :: !IsSummary(msgs[k])
      {
        var m := msgs[i - 1];
        if IsSummary(m) {
          BelowASummary(msgs, i, 0);
          return;
        }
        i := i - 1;
        if m.role.User? {
          turns := turns + 1;
        }
        if turns >= 2 {
          var j := 0;
          while j < |m.parts|
            invariant j <= |m.parts|
            invariant cands == Candidates(msgs, i + 1) + InMessage(msgs, i, j)
          {
            if Prunable(m.parts[j]) {
              cands := cands + [Place(i, j)];
            }
            j := j + 1;
          }
        }
      }
    }

    method TokensFrom(cands: seq<Place>, cut: nat) returns (prunable: nat)
      requires AllWithin(msgs, cands) && cut <= |cands|
      ensures prunable == Sum(msgs, cands[cut..])
    {
      prunable := 0;
      for k := cut to |cands|
        invariant prunable == Sum(msgs, cands[cut..k])
      {
        assert cands[cut..k + 1] == cands[cut..k] + [cands[k]];
        assert cands[k] in cands;
        prunable := prunable + Tokens(msgs[cands[k].msg].parts[cands[k].part]);
      }
      assert cands[cut..|cands|] == cands[cut..];
    }

    method MarkFrom(cands: seq<Place>, cut: nat, now: int)
      requires AllWithin(msgs, cands) && cut <= |cands|
      modifies this
      ensures msgs == Mark(old(msgs), cands[cut..], now)
    {
      NothingMarked(msgs, now);
      assert cands[cut..cut] == [];
      for k := cut to |cands|
        invariant msgs == Mark(old(msgs), cands[cut..k], now)
      {
        var p := cands[k];
        assert cands[cut..k + 1] == cands[cut..k] + [p];
        assert p in cands;
        MarkOneMore(old(msgs), cands[cut..k], p, now);
        var m := msgs[p.msg];
        msgs := msgs[p.msg := m.(parts := m.parts[p.part := Compact(m.parts[p.part], now)])];
      }
      assert cands[cut..|cands|] == cands[cut..];
    }

    /** Gives up the outputs past the protected ones, when they are worth it. */
    method Prune(now: int)
      modifies this
      ensures msgs == Pruned(old(msgs), now)
    {
      var cands := Collect();
      CandidatesWithin(msgs, 0);
      var cut := FindCut(msgs, cands);
      var prunable := TokensFrom(cands, cut);
      NothingMarked(msgs, now);
      if prunable <= MINIMUM {
        return;
      }
      MarkFrom(cands, cut, now);
    }
  }

  lemma {:induction false} BelowASummary(msgs: seq<Message>, i: nat, k: nat)
    requires k < i <= |msgs| && IsSummary(msgs[i - 1])
    ensures Candidates(msgs, k) == Candidates(msgs, i)
    decreases i - k
  {
    if k + 1 < i {
      BelowASummary(msgs, i, k + 1);
    }
    assert !Open(msgs, k);
  }

  lemma MarkOneMore(msgs: seq<Message>, ps: seq<Place>, p: Place, now: int)
    requires Within(msgs, p)
    ensures Within(Mark(msgs, ps, now), p)
    ensures var done := Mark(msgs, ps, now);
            var m := done[p.msg];
            done[p.msg := m.(parts := m.parts[p.part := Compact(m.parts[p.part], now)])] ==
            Mark(msgs, ps + [p], now)
  {
    var done, more := Mark(msgs, ps, now), Mark(msgs, ps + [p], now);
    var m := done[p.msg];
    var next := done[p.msg := m.(parts := m.parts[p.part := Compact(m.parts[p.part], now)])];
    forall i | 0 <= i < |msgs|
      ensures next[i] == more[i]
    {
      assert next[i].parts == more[i].parts;
    }
  }

  /** Adds up the candidates until enough is protected. */
  method FindCut(msgs: seq<Message>, cands: seq<Place>) returns (cut: nat)
    requires AllWithin(msgs, cands)
    ensures cut == Cut(msgs, cands) && cut <= |cands|
  {
    CutIsLeast(msgs, cands);
    assert cands[..|cands|] == cands;
    cut := |cands|;
    var sum, k := 0, 0;
    while k < |cands|
      invariant k <= |cands| == cut && sum == Sum(msgs, cands[..k]) && k <= Cut(msgs, cands)
    {
      PastTheCutIff(msgs, cands, k);
      if sum >= PROTECT {
        cut := k;
        break;
      }
      assert cands[..k + 1][..k] == cands[..k];
      assert cands[k] in cands;
      sum := sum + Tokens(msgs[cands[k].msg].parts[cands[k].part]);
      k := k + 1;
    }
  }

  // ---------------------------------------------------------------------------
  // The tail to keep
  // ---------------------------------------------------------------------------

  method HasCompactionPart(parts: seq<Part>) returns (has: bool)
    ensures has <==> Compaction in parts
  {
    for k := 0 to |parts|
      invariant Compaction !in parts[..k]
    {
      if parts[k].Compaction? {
        return true;
      }
    }
    has := false;
  }

  /** A turn that the user took; a request to compact is not one. */
  predicate IsTurn(m: Message) {
    m.role.User? && Compaction !in m.parts
  }

  function CountTurns(history: seq<Message>): nat {
    if history == [] then 0
    else CountTurns(history[..|history| - 1]) + if IsTurn(history[|history| - 1]) then 1 else 0
  }

  predicate AsksNothing(m: Message) {
    m.role.User? && forall p | p in m.parts :: !p.Compaction?
  }

  lemma TurnAsksNothing(m: Message)
    ensures IsTurn(m) <==> AsksNothing(m)
  {
    assert Compaction in m.parts <==> exists p :: p in m.parts && p.Compaction?;
  }

  /** The user's messages among the first `n` that do not ask for compaction. */
  function TurnPlaces(history: seq<Message>, n: nat): set<nat>
    requires n <= |history|
  {
    set i: nat | i < n && AsksNothing(history[i])
  }

  lemma {:induction false} TurnsOfFirst(history: seq<Message>, n: nat)
    requires n <= |history|
    ensures CountTurns(history[..n]) == |TurnPlaces(history, n)|
  {
    if n > 0 {
      TurnsOfFirst(history, n - 1);
      assert history[..n][..n - 1] == history[..n - 1];
      var last := history[n - 1];
      TurnAsksNothing(last);
      hide IsTurn, AsksNothing;
      assert TurnPlaces(history, n) == TurnPlaces(history, n - 1) + if IsTurn(last) then {n - 1} else {};
      assert n - 1 !in TurnPlaces(history, n - 1);
    }
  }

  /** The turns are the user's messages that do not ask for compaction. */
  lemma TurnsAre(history: seq<Message>)
    ensures CountTurns(history) == |TurnPlaces(history, |history|)|
  {
    TurnsOfFirst(history, |history|);
    assert history[..|history|] == history;
  }

  lemma {:induction false} CountSplits(a: seq<Message>, b: seq<Message>)
    ensures CountTurns(a + b) == CountTurns(a) + CountTurns(b)
  {
    if b == [] {
      assert a + b == a;
    } else {
      assert (a + b)[..|a + b| - 1] == a + b[..|b| - 1];
      CountSplits(a, b[..|b| - 1]);
    }
  }

  /**
   Splits before the turn that leaves exactly `tailTurns` turns; with no more turns than that
   there is nothing to summarize. The head it returns otherwise is never empty.
   */
  method SelectTail(history: seq<Message>, tailTurns: int) returns (head: seq<Message>, tailStart: string)
    ensures head <= history
    ensures (tailTurns <= 0 || CountTurns(history) <= tailTurns) <==> head == []
    ensures head == [] ==> tailStart == ""
    ensures head != [] ==>
              && |head| < |history| && IsTurn(history[|head|]) && tailStart == history[|head|].id
              && CountTurns(history[|head|..]) == tailTurns
  {
    if tailTurns <= 0 {
      return [], "";
    }
    var starts: seq<nat>, ids: seq<string> := [], [];
    for i := 0 to |history|
      invariant |starts| == |ids| == CountTurns(history[..i])
      invariant forall k | 0 <= k < |starts| ::
                  && k <= starts[k] < i && IsTurn(history[starts[k]])
                  && ids[k] == history[starts[k]].id && CountTurns(history[..starts[k]]) == k
    {
      assert history[..i + 1][..i] == history[..i];
      CountAtMost(history[..i]);
      var compaction := HasCompactionPart(history[i].parts);
      if history[i].role.User? && !compaction {
        starts, ids := starts + [i], ids + [history[i].id];
      }
    }
    assert history[..|history|] == history;
    if |starts| <= tailTurns {
      return [], "";
    }
    var ti := |starts| - tailTurns;
    var start := starts[ti];
    if start <= 0 {
      return [], "";
    }
    assert history == history[..start] + history[start..];
    CountSplits(history[..start], history[start..]);
    return history[..start], ids[ti];
  }

  lemma {:induction false} CountAtMost(history: seq<Message>)
    ensures CountTurns(history) <= |history|
  {
    if history != [] {
      CountAtMost(history[..|history| - 1]);
    }
  }
}
