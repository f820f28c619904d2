/**
 Which tool outputs a session gives up when its context is pruned: the walk over the messages
 as a function, and what follows from it about every session.
 */
module Pruning {

  const MINIMUM: nat := 20_000
  const PROTECT: nat := 40_000

  datatype Option<T> = None | Some(value: T)

  datatype Status = Pending | Running | Completed | Failed

  /** `readable` is whether the stored state decodes; `output` is a string of bytes. */
  datatype Part =
    | Tool(tool: string, status: Status, readable: bool, output: string, compacted: Option<int>)
    | Compaction
    | Other

  datatype Role = User | Assistant(summary: bool)

  datatype Message = Message(id: string, role: Role, parts: seq<Part>)

  /** A part of a message, by position; messages are listed oldest first. */
  datatype Place = Place(msg: nat, part: nat)

  function Tokens(p: Part): nat {
    if p.Tool? then |p.output| / 4 else 0
  }

  predicate Prunable(p: Part) {
    p.Tool? && p.status.Completed? && p.tool != "skill" && p.readable && p.compacted.None?
  }

  /** The user messages from `i` on. */
  function Turns(msgs: seq<Message>, i: nat): nat
    requires i <= |msgs|
    decreases |msgs| - i
  {
    if i == |msgs| then 0 else Turns(msgs, i + 1) + if msgs[i].role.User? then 1 else 0
  }

  predicate IsSummary(m: Message) {
    m.role.Assistant? && m.role.summary
  }

  /** The walk from the newest message reaches `i` and has left the two most recent turns. */
  predicate Open(msgs: seq<Message>, i: nat)
    requires i < |msgs|
  {
    && (forall k | i <= k < |msgs| :: !IsSummary(msgs[k]))
    && Turns(msgs, i) >= 2
  }

  /** The prunable places among the first `j` parts of message `i`, in their order. */
  function InMessage(msgs: seq<Message>, i: nat, j: nat): seq<Place>
    requires i < |msgs| && j <= |msgs[i].parts|
  {
    if j == 0 then []
    else InMessage(msgs, i, j - 1) + if Prunable(msgs[i].parts[j - 1]) then [Place(i, j - 1)] else []
  }

  /** The candidates in messages `i` on: newest message first, in each message the first part first. */
  function Candidates(msgs: seq<Message>, i: nat): seq<Place>
    requires i <= |msgs|
    decreases |msgs| - i
  {
    if i == |msgs| then []
    else Candidates(msgs, i + 1) + if Open(msgs, i) then InMessage(msgs, i, |msgs[i].parts|) else []
  }

  predicate Within(msgs: seq<Message>, p: Place) {
    p.msg < |msgs| && p.part < |msgs[p.msg].parts|
  }

  predicate AllWithin(msgs: seq<Message>, ps: seq<Place>) {
    forall p | p in ps :: Within(msgs, p)
  }

  /** The tokens in a list of places. */
  function Sum(msgs: seq<Message>, ps: seq<Place>): nat
    requires AllWithin(msgs, ps)
  {
    if ps == [] then 0
    else
      var last := ps[|ps| - 1];
      assert last in ps;
      Sum(msgs, ps[..|ps| - 1]) + Tokens(msgs[last.msg].parts[last.part])
  }

  /** The first candidate that is not protected, or the number of candidates. */
  function Cut(msgs: seq<Message>, ps: seq<Place>): nat
    requires AllWithin(msgs, ps)
  {
    if ps == [] then 0
    else
      var n := |ps| - 1;
      var c := Cut(msgs, ps[..n]);
      if c < n then c else if Sum(msgs, ps[..n]) >= PROTECT then n else n + 1
  }

  /** What one run gives up. */
  ghost function Chosen(msgs: seq<Message>): seq<Place> {
    CandidatesWithin(msgs, 0);
    var all := Candidates(msgs, 0);
    CutIsLeast(msgs, all);
    var rest := all[Cut(msgs, all)..];
    if Sum(msgs, rest) <= MINIMUM then [] else rest
  }

  function Compact(p: Part, now: int): Part {
    if p.Tool? then p.(compacted := Some(now)) else p
  }

  function MarkParts(parts: seq<Part>, i: nat, ps: seq<Place>, now: int): seq<Part> {
    seq(|parts|, j requires 0 <= j < |parts| => if Place(i, j) in ps then Compact(parts[j], now) else parts[j])
  }

  function Mark(msgs: seq<Message>, ps: seq<Place>, now: int): seq<Message> {
    seq(|msgs|, i requires 0 <= i < |msgs| => msgs[i].(parts := MarkParts(msgs[i].parts, i, ps, now)))
  }

  ghost function Pruned(msgs: seq<Message>, now: int): seq<Message> {
    Mark(msgs, Chosen(msgs), now)
  }

  // ---------------------------------------------------------------------------
  // The candidates
  // ---------------------------------------------------------------------------

  predicate Candidate(msgs: seq<Message>, p: Place) {
    Within(msgs, p) && Open(msgs, p.msg) && Prunable(msgs[p.msg].parts[p.part])
  }

  lemma {:induction false} InMessageHas(msgs: seq<Message>, i: nat, j: nat, p: Place)
    requires i < |msgs| && j <= |msgs[i].parts|
    ensures p in InMessage(msgs, i, j) <==> p.msg == i && p.part < j && Prunable(msgs[i].parts[p.part])
  {
    if j > 0 {
      InMessageHas(msgs, i, j - 1, p);
    }
  }

  lemma {:induction false} CandidatesHas(msgs: seq<Message>, i: nat, p: Place)
    requires i <= |msgs|
    ensures p in Candidates(msgs, i) <==> i <= p.msg && Candidate(msgs, p)
    decreases |msgs| - i
  {
    if i < |msgs| {
      CandidatesHas(msgs, i + 1, p);
      InMessageHas(msgs, i, |msgs[i].parts|, p);
    }
  }

  lemma CandidatesWithin(msgs: seq<Message>, i: nat)
    requires i <= |msgs|
    ensures AllWithin(msgs, Candidates(msgs, i))
  {
    forall p | p in Candidates(msgs, i)
      ensures Within(msgs, p)
    {
      CandidatesHas(msgs, i, p);
    }
  }

  predicate Distinct(ps: seq<Place>) {
    forall a, b | 0 <= a < b < |ps| :: ps[a] != ps[b]
  }

  lemma DistinctParts(ps: seq<Place>, qs: seq<Place>)
    requires Distinct(ps) && Distinct(qs) && forall p | p in ps :: p !in qs
    ensures Distinct(ps + qs)
  {
    forall a, b | 0 <= a < b < |ps + qs|
      ensures (ps + qs)[a] != (ps + qs)[b]
    {
      if a < |ps| <= b {
        assert ps[a] in ps && qs[b - |ps|] in qs;
      }
    }
  }

  lemma {:induction false} InMessageDistinct(msgs: seq<Message>, i: nat, j: nat)
    requires i < |msgs| && j <= |msgs[i].parts|
    ensures Distinct(InMessage(msgs, i, j))
  {
    if j > 0 {
      InMessageDistinct(msgs, i, j - 1);
      InMessageHas(msgs, i, j - 1, Place(i, j - 1));
    }
  }

  lemma {:induction false} CandidatesDistinct(msgs: seq<Message>, i: nat)
    requires i <= |msgs|
    ensures Distinct(Candidates(msgs, i))
    decreases |msgs| - i
  {
    if i < |msgs| {
      CandidatesDistinct(msgs, i + 1);
      InMessageDistinct(msgs, i, |msgs[i].parts|);
      var newer, here := Candidates(msgs, i + 1), InMessage(msgs, i, |msgs[i].parts|);
      forall p | p in newer
        ensures p !in here
      {
        CandidatesHas(msgs, i + 1, p);
        InMessageHas(msgs, i, |msgs[i].parts|, p);
      }
      DistinctParts(newer, here);
    }
  }

  // ---------------------------------------------------------------------------
  // The cut
  // ---------------------------------------------------------------------------

  lemma {:induction false} SumSplits(msgs: seq<Message>, ps: seq<Place>, qs: seq<Place>)
    requires AllWithin(msgs, ps) && AllWithin(msgs, qs)
    ensures AllWithin(msgs, ps + qs)
    ensures Sum(msgs, ps + qs) == Sum(msgs, ps) + Sum(msgs, qs)
  {
    if qs == [] {
      assert ps + qs == ps;
    } else {
      assert (ps + qs)[..|ps + qs| - 1] == ps + qs[..|qs| - 1];
      SumSplits(msgs, ps, qs[..|qs| - 1]);
    }
  }

  /** The protected candidates reach `PROTECT`, unless they are all there are, and no fewer would. */
  lemma {:induction false} CutIsLeast(msgs: seq<Message>, ps: seq<Place>)
    requires AllWithin(msgs, ps)
    ensures Cut(msgs, ps) <= |ps|
    ensures Cut(msgs, ps) < |ps| ==> Sum(msgs, ps[..Cut(msgs, ps)]) >= PROTECT
    ensures forall d | 0 <= d < Cut(msgs, ps) :: Sum(msgs, ps[..d]) < PROTECT
  {
    if ps != [] {
      var n := |ps| - 1;
      CutIsLeast(msgs, ps[..n]);
      assert forall d | 0 <= d <= n :: ps[..n][..d] == ps[..d];
    }
  }

  lemma MoreIsMore(msgs: seq<Message>, ps: seq<Place>, a: nat, b: nat)
    requires AllWithin(msgs, ps) && a <= b <= |ps|
    ensures Sum(msgs, ps[..a]) <= Sum(msgs, ps[..b])
  {
    assert ps[..b] == ps[..a] + ps[a..b];
    SumSplits(msgs, ps[..a], ps[a..b]);
  }

  lemma PastTheCutIff(msgs: seq<Message>, ps: seq<Place>, k: nat)
    requires AllWithin(msgs, ps) && k < |ps|
    ensures Cut(msgs, ps) <= k <==> Sum(msgs, ps[..k]) >= PROTECT
  {
    CutIsLeast(msgs, ps);
    if Cut(msgs, ps) <= k {
      MoreIsMore(msgs, ps, Cut(msgs, ps), k);
    }
  }

  // ---------------------------------------------------------------------------
  // What is given up
  // ---------------------------------------------------------------------------

  /** The candidates met before message `i`, part `j`: those of newer messages, and earlier ones of its own. */
  function Ahead(msgs: seq<Message>, p: Place): (ps: seq<Place>)
    requires Within(msgs, p)
    ensures AllWithin(msgs, ps)
  {
    CandidatesWithin(msgs, p.msg + 1);
    assert forall q | q in InMessage(msgs, p.msg, p.part) :: Within(msgs, q) by {
      forall q | q in InMessage(msgs, p.msg, p.part)
        ensures Within(msgs, q)
      {
        InMessageHas(msgs, p.msg, p.part, q);
      }
    }
    Candidates(msgs, p.msg + 1) + InMessage(msgs, p.msg, p.part)
  }

  lemma {:induction false} InMessagePrefix(msgs: seq<Message>, i: nat, j: nat, p: Place)
    requires i < |msgs| && j <= |msgs[i].parts|
    requires p.msg == i && p.part < j && Prunable(msgs[i].parts[p.part])
    ensures InMessage(msgs, i, p.part) + [p] <= InMessage(msgs, i, j)
  {
    if p.part < j - 1 {
      InMessagePrefix(msgs, i, j - 1, p);
    }
  }

  lemma {:induction false} AheadIsPrefix(msgs: seq<Message>, i: nat, p: Place)
    requires Candidate(msgs, p) && i <= p.msg
    ensures Ahead(msgs, p) + [p] <= Candidates(msgs, i)
    decreases |msgs| - i
  {
    if i == p.msg {
      InMessagePrefix(msgs, i, |msgs[i].parts|, p);
      assert Candidates(msgs, i) == Candidates(msgs, i + 1) + InMessage(msgs, i, |msgs[i].parts|);
    } else {
      hide Candidate, Open, Ahead;
      AheadIsPrefix(msgs, i + 1, p);
    }
  }

  predicate PruningPays(msgs: seq<Message>) {
    CandidatesWithin(msgs, 0);
    CutIsLeast(msgs, Candidates(msgs, 0));
    Sum(msgs, Candidates(msgs, 0)[Cut(msgs, Candidates(msgs, 0))..]) > MINIMUM
  }

  /** By position: a part is given up when it is a candidate with `PROTECT` tokens ahead of it, if any is. */
  lemma GivenUpIff(msgs: seq<Message>, p: Place)
    ensures p in Chosen(msgs) <==>
            PruningPays(msgs) && Candidate(msgs, p) && Sum(msgs, Ahead(msgs, p)) >= PROTECT
  {
    var all := Candidates(msgs, 0);
    CandidatesWithin(msgs, 0);
    CutIsLeast(msgs, all);
    CandidatesHas(msgs, 0, p);
    if Candidate(msgs, p) {
      AheadIsPrefix(msgs, 0, p);
      var k := |Ahead(msgs, p)|;
      assert all[..k] == Ahead(msgs, p) && all[k] == p;
      PastTheCutIff(msgs, all, k);
      CandidatesDistinct(msgs, 0);
      if p in all[Cut(msgs, all)..] {
        var m :| Cut(msgs, all) <= m < |all| && all[m] == p;
        assert m == k;
      }
      if Cut(msgs, all) <= k {
        assert all[Cut(msgs, all)..][k - Cut(msgs, all)] == p;
      }
    }
  }

  lemma ChosenPays(msgs: seq<Message>)
    requires Chosen(msgs) != []
    ensures AllWithin(msgs, Chosen(msgs)) && Sum(msgs, Chosen(msgs)) > MINIMUM
  {
    hide Candidates, Cut, Sum, Open, InMessage;
    CandidatesWithin(msgs, 0);
    CutIsLeast(msgs, Candidates(msgs, 0));
  }

  /**
   When anything is given up it is more than `MINIMUM` tokens, at least `PROTECT` tokens of
   candidates stay, and the last of those was needed to reach it.
   */
  lemma PruningBounds(msgs: seq<Message>)
    requires Chosen(msgs) != []
    ensures AllWithin(msgs, Chosen(msgs)) && Sum(msgs, Chosen(msgs)) > MINIMUM
    ensures exists kept ::
              && kept + Chosen(msgs) == Candidates(msgs, 0) && kept != []
              && AllWithin(msgs, kept) && Sum(msgs, kept) >= PROTECT
              && Sum(msgs, kept[..|kept| - 1]) < PROTECT
  {
    ChosenIsTail(msgs);
    var all, cut := Candidates(msgs, 0), Cut(msgs, Candidates(msgs, 0));
    CutIsLeast(msgs, all);
    ChosenPays(msgs);
    hide *;
    assert all[..cut][..cut - 1] == all[..cut - 1];
    assert all[..cut] + Chosen(msgs) == all;
  }

  /**
   A run changes exactly the parts it gives up, and only by marking them; each was a completed
   output of a tool other than "skill", not marked before, with two user messages and no
   summary from its message on.
   */
  lemma OnlyCandidatesChange(msgs: seq<Message>, now: int, p: Place)
    requires Within(msgs, p)
    ensures Within(Pruned(msgs, now), p) && |Pruned(msgs, now)| == |msgs|
    ensures Pruned(msgs, now)[p.msg].role == msgs[p.msg].role
    ensures |Pruned(msgs, now)[p.msg].parts| == |msgs[p.msg].parts|
    ensures var was, after := msgs[p.msg].parts[p.part], Pruned(msgs, now)[p.msg].parts[p.part];
            && (was != after <==> p in Chosen(msgs))
            && (was != after ==>
                && was.Tool? && was.status.Completed? && was.tool != "skill" && was.compacted.None?
                && after == was.(compacted := Some(now))
                && Turns(msgs, p.msg) >= 2
                && forall k | p.msg <= k < |msgs| :: !IsSummary(msgs[k]))
  {
    hide Chosen, PruningPays, Ahead;
    GivenUpIff(msgs, p);
  }

  /** Two messages from `i` on are the user's. */
  predicate TwoTurnsFrom(msgs: seq<Message>, i: nat) {
    exists a, b :: i <= a < b < |msgs| && msgs[a].role.User? && msgs[b].role.User?
  }

  lemma {:induction false} OneTurnIff(msgs: seq<Message>, i: nat)
    requires i <= |msgs|
    ensures Turns(msgs, i) >= 1 <==> exists a :: i <= a < |msgs| && msgs[a].role.User?
    decreases |msgs| - i
  {
    if i < |msgs| {
      OneTurnIff(msgs, i + 1);
    }
  }

  lemma {:induction false} TwoTurnsIff(msgs: seq<Message>, i: nat)
    requires i <= |msgs|
    ensures Turns(msgs, i) >= 2 <==> TwoTurnsFrom(msgs, i)
    decreases |msgs| - i
  {
    if i < |msgs| {
      TwoTurnsIff(msgs, i + 1);
      OneTurnIff(msgs, i + 1);
      if msgs[i].role.User? {
        if Turns(msgs, i + 1) >= 1 {
          var b :| i + 1 <= b < |msgs| && msgs[b].role.User?;
          assert i <= i < b;
        }
      }
    }
  }

  /**
   A part can be given up exactly if it is the readable output of a completed call of a tool other
   than "skill", not marked before, no message from its own on is a summary, and two of them are
   the user's.
   */
  lemma CandidateIff(msgs: seq<Message>, p: Place)
    ensures p in Candidates(msgs, 0) <==>
            && p.msg < |msgs| && p.part < |msgs[p.msg].parts|
            && TwoTurnsFrom(msgs, p.msg)
            && (forall k | p.msg <= k < |msgs| :: msgs[k].role.User? || !msgs[k].role.summary)
            && match msgs[p.msg].parts[p.part]
               case Tool(tool, status, readable, _, compacted) =>
                 status == Completed && tool != "skill" && readable && compacted == None
               case _ => false
  {
    CandidatesHas(msgs, 0, p);
    if p.msg < |msgs| {
      TwoTurnsIff(msgs, p.msg);
    }
    hide Candidates, Turns, TwoTurnsFrom;
  }

  /** The bytes in a list of outputs. */
  function Bytes(msgs: seq<Message>, ps: seq<Place>): nat
    requires AllWithin(msgs, ps)
  {
    if ps == [] then 0
    else
      var last := ps[|ps| - 1];
      assert last in ps;
      var part := msgs[last.msg].parts[last.part];
      Bytes(msgs, ps[..|ps| - 1]) + if part.Tool? then |part.output| else 0
  }

  /** A token is four bytes of one output, so up to three bytes of each output do not count. */
  lemma {:induction false} TokensAreBytes(msgs: seq<Message>, ps: seq<Place>)
    requires AllWithin(msgs, ps)
    ensures 4 * Sum(msgs, ps) <= Bytes(msgs, ps) <= 4 * Sum(msgs, ps) + 3 * |ps|
  {
    if ps != [] {
      assert ps[|ps| - 1] in ps;
      TokensAreBytes(msgs, ps[..|ps| - 1]);
    }
  }

  /** In bytes: when anything is given up, it is more than 80000, and at least 160000 of candidates stay. */
  lemma PruningInBytes(msgs: seq<Message>)
    requires Chosen(msgs) != []
    ensures AllWithin(msgs, Chosen(msgs)) && Bytes(msgs, Chosen(msgs)) > 80_000
    ensures exists kept ::
              && kept + Chosen(msgs) == Candidates(msgs, 0) && kept != [] && AllWithin(msgs, kept)
              && Bytes(msgs, kept) >= 160_000
              && Bytes(msgs, kept[..|kept| - 1]) < 160_000 + 3 * |kept|
  {
    PruningBounds(msgs);
    hide Chosen, Candidates, Sum, Bytes, AllWithin;
    var kept :|
      && kept + Chosen(msgs) == Candidates(msgs, 0) && kept != []
      && AllWithin(msgs, kept) && Sum(msgs, kept) >= PROTECT
      && Sum(msgs, kept[..|kept| - 1]) < PROTECT;
    TokensAreBytes(msgs, Chosen(msgs));
    TokensAreBytes(msgs, kept);
    FewerWithin(msgs, kept);
    TokensAreBytes(msgs, kept[..|kept| - 1]);
  }

  lemma FewerWithin(msgs: seq<Message>, ps: seq<Place>)
    requires AllWithin(msgs, ps) && ps != []
    ensures AllWithin(msgs, ps[..|ps| - 1])
  {
  }

  // ---------------------------------------------------------------------------
  // Pruning again
  // ---------------------------------------------------------------------------

  function Without(ps: seq<Place>, gone: seq<Place>): seq<Place> {
    if ps == [] then []
    else Without(ps[..|ps| - 1], gone) + if ps[|ps| - 1] in gone then [] else [ps[|ps| - 1]]
  }

  lemma {:induction false} WithoutSplits(ps: seq<Place>, qs: seq<Place>, gone: seq<Place>)
    ensures Without(ps + qs, gone) == Without(ps, gone) + Without(qs, gone)
  {
    if qs == [] {
      assert ps + qs == ps;
    } else {
      assert (ps + qs)[..|ps + qs| - 1] == ps + qs[..|qs| - 1];
      WithoutSplits(ps, qs[..|qs| - 1], gone);
    }
  }

  lemma {:induction false} WithoutNone(ps: seq<Place>, gone: seq<Place>)
    requires forall p | p in ps :: p !in gone
    ensures Without(ps, gone) == ps
  {
    if ps != [] {
      WithoutNone(ps[..|ps| - 1], gone);
    }
  }

  lemma {:induction false} WithoutAll(ps: seq<Place>, gone: seq<Place>)
    requires forall p | p in ps :: p in gone
    ensures Without(ps, gone) == []
  {
    if ps != [] {
      WithoutAll(ps[..|ps| - 1], gone);
    }
  }

  lemma MarkedPart(msgs: seq<Message>, ps: seq<Place>, now: int, p: Place)
    requires Within(msgs, p)
    ensures Within(Mark(msgs, ps, now), p)
    ensures |Mark(msgs, ps, now)[p.msg].parts| == |msgs[p.msg].parts|
    ensures var was, after := msgs[p.msg].parts[p.part], Mark(msgs, ps, now)[p.msg].parts[p.part];
            Tokens(after) == Tokens(was) && (Prunable(after) <==> Prunable(was) && p !in ps)
  {
  }

  lemma {:induction false} MarkedTurns(msgs: seq<Message>, ps: seq<Place>, now: int, i: nat)
    requires i <= |msgs|
    ensures Turns(Mark(msgs, ps, now), i) == Turns(msgs, i)
    decreases |msgs| - i
  {
    if i < |msgs| {
      MarkedTurns(msgs, ps, now, i + 1);
    }
  }

  lemma MarkedOpen(msgs: seq<Message>, ps: seq<Place>, now: int, i: nat)
    requires i < |msgs|
    ensures Open(Mark(msgs, ps, now), i) <==> Open(msgs, i)
  {
    MarkedTurns(msgs, ps, now, i);
    var marked := Mark(msgs, ps, now);
    assert forall k | 0 <= k < |msgs| :: IsSummary(marked[k]) <==> IsSummary(msgs[k]);
  }

  lemma {:induction false} MarkedInMessage(msgs: seq<Message>, ps: seq<Place>, now: int, i: nat, j: nat)
    requires i < |msgs| && j <= |msgs[i].parts|
    ensures InMessage(Mark(msgs, ps, now), i, j) == Without(InMessage(msgs, i, j), ps)
  {
    if j > 0 {
      MarkedInMessage(msgs, ps, now, i, j - 1);
      MarkedPart(msgs, ps, now, Place(i, j - 1));
      hide Mark, Prunable;
      var here := if Prunable(msgs[i].parts[j - 1]) then [Place(i, j - 1)] else [];
      WithoutSplits(InMessage(msgs, i, j - 1), here, ps);
      assert Without(here, ps) == if Place(i, j - 1) in ps then [] else here by {
        if here != [] { assert here[..0] == []; }
      }
    }
  }

  /** Marked parts stop being candidates; nothing else does. */
  lemma {:induction false} MarkedCandidates(msgs: seq<Message>, ps: seq<Place>, now: int, i: nat)
    requires i <= |msgs|
    ensures Candidates(Mark(msgs, ps, now), i) == Without(Candidates(msgs, i), ps)
    decreases |msgs| - i
  {
    if i < |msgs| {
      MarkedCandidates(msgs, ps, now, i + 1);
      MarkedOpen(msgs, ps, now, i);
      MarkedInMessage(msgs, ps, now, i, |msgs[i].parts|);
      hide Mark, Open, InMessage, Without;
      if Open(msgs, i) {
        WithoutSplits(Candidates(msgs, i + 1), InMessage(msgs, i, |msgs[i].parts|), ps);
      } else {
        assert Candidates(msgs, i) == Candidates(msgs, i + 1);
      }
    }
  }

  lemma {:induction false} MarkedSum(msgs: seq<Message>, ps: seq<Place>, now: int, qs: seq<Place>)
    requires AllWithin(msgs, qs)
    ensures AllWithin(Mark(msgs, ps, now), qs)
    ensures Sum(Mark(msgs, ps, now), qs) == Sum(msgs, qs)
  {
    if qs != [] {
      MarkedSum(msgs, ps, now, qs[..|qs| - 1]);
      assert qs[|qs| - 1] in qs;
      MarkedPart(msgs, ps, now, qs[|qs| - 1]);
    }
    forall q | q in qs
      ensures Within(Mark(msgs, ps, now), q)
    {
      MarkedPart(msgs, ps, now, q);
    }
  }

  lemma {:induction false} MarkedCut(msgs: seq<Message>, ps: seq<Place>, now: int, qs: seq<Place>)
    requires AllWithin(msgs, qs)
    ensures AllWithin(Mark(msgs, ps, now), qs)
    ensures Cut(Mark(msgs, ps, now), qs) == Cut(msgs, qs)
  {
    MarkedSum(msgs, ps, now, qs);
    if qs != [] {
      MarkedCut(msgs, ps, now, qs[..|qs| - 1]);
      MarkedSum(msgs, ps, now, qs[..|qs| - 1]);
    }
  }

  lemma LeftAfterPruning(msgs: seq<Message>, now: int)
    requires Chosen(msgs) != []
    ensures Candidates(Pruned(msgs, now), 0) + Chosen(msgs) == Candidates(msgs, 0)
  {
    PruningBounds(msgs);
    var kept :| kept + Chosen(msgs) == Candidates(msgs, 0);
    MarkedCandidates(msgs, Chosen(msgs), now, 0);
    CandidatesDistinct(msgs, 0);
    hide *;
    TailLeaves(kept, Chosen(msgs));
  }

  lemma StaysApart(kept: seq<Place>, gone: seq<Place>, a: nat)
    requires Distinct(kept + gone) && a < |kept|
    ensures kept[a] !in gone
  {
    forall b | 0 <= b < |gone|
      ensures gone[b] != kept[a]
    {
      assert (kept + gone)[a] == kept[a] && (kept + gone)[|kept| + b] == gone[b];
    }
  }

  lemma TailLeaves(kept: seq<Place>, gone: seq<Place>)
    requires Distinct(kept + gone)
    ensures Without(kept + gone, gone) == kept
  {
    forall p | p in kept
      ensures p !in gone
    {
      var a :| 0 <= a < |kept| && kept[a] == p;
      StaysApart(kept, gone, a);
    }
    WithoutSplits(kept, gone, gone);
    WithoutNone(kept, gone);
    WithoutAll(gone, gone);
  }

  lemma NothingMarked(msgs: seq<Message>, now: int)
    ensures Mark(msgs, [], now) == msgs
  {
    assert forall i | 0 <= i < |msgs| :: Mark(msgs, [], now)[i].parts == msgs[i].parts;
  }

  lemma NoneLeftToChoose(msgs: seq<Message>, now: int)
    requires Chosen(msgs) != []
    ensures Chosen(Pruned(msgs, now)) == []
  {
    CandidatesWithin(msgs, 0);
    var all, next := Candidates(msgs, 0), Pruned(msgs, now);
    var left := Candidates(next, 0);
    LeftAfterPruning(msgs, now);
    CandidatesWithin(next, 0);
    assert left == all[..|left|];
    assert |left| == Cut(msgs, all);
    hide Candidates;
    CutIsLeast(msgs, all);
    MarkedCut(msgs, Chosen(msgs), now, left);
    CutIsLeast(msgs, left);
    assert left[..Cut(msgs, left)] == all[..Cut(msgs, left)];
    hide Cut;
    assert left[Cut(msgs, left)..] == [];
  }

  /** A second run straight after the first changes nothing. */
  lemma PruneIsIdempotent(msgs: seq<Message>, now: int, later: int)
    ensures Pruned(Pruned(msgs, now), later) == Pruned(msgs, now)
  {
    if Chosen(msgs) == [] {
      NothingMarked(msgs, now);
      NothingMarked(msgs, later);
    } else {
      NoneLeftToChoose(msgs, now);
      NothingMarked(Pruned(msgs, now), later);
    }
  }

  // ---------------------------------------------------------------------------
  // Is it the most recent output that is protected?
  // ---------------------------------------------------------------------------

  predicate Newer(p: Place, q: Place) {
    p.msg > q.msg || (p.msg == q.msg && p.part > q.part)
  }

  lemma {:induction false} InMessageOrder(msgs: seq<Message>, i: nat, j: nat, a: nat, b: nat)
    requires i < |msgs| && j <= |msgs[i].parts|
    requires a < b < |InMessage(msgs, i, j)|
    ensures InMessage(msgs, i, j)[a].msg == InMessage(msgs, i, j)[b].msg == i
    ensures InMessage(msgs, i, j)[a].part < InMessage(msgs, i, j)[b].part < j
  {
    var all := InMessage(msgs, i, j);
    if b < |InMessage(msgs, i, j - 1)| {
      InMessageOrder(msgs, i, j - 1, a, b);
    } else {
      assert all[a] in InMessage(msgs, i, j - 1);
      InMessageHas(msgs, i, j - 1, all[a]);
    }
  }

  /** Candidates come message by message, newest first; within one message, oldest part first. */
  lemma {:induction false} CandidateOrder(msgs: seq<Message>, i: nat, a: nat, b: nat)
    requires i <= |msgs| && a < b < |Candidates(msgs, i)|
    ensures var p, q := Candidates(msgs, i)[a], Candidates(msgs, i)[b];
            p.msg > q.msg || (p.msg == q.msg && p.part < q.part)
    decreases |msgs| - i
  {
    var newer, all := Candidates(msgs, i + 1), Candidates(msgs, i);
    if b < |newer| {
      CandidateOrder(msgs, i + 1, a, b);
    } else {
      var here := InMessage(msgs, i, |msgs[i].parts|);
      InMessageHas(msgs, i, |msgs[i].parts|, all[b]);
      assert all[b] == here[b - |newer|];
      if a < |newer| {
        CandidatesHas(msgs, i + 1, all[a]);
      } else {
        assert all[a] == here[a - |newer|];
        InMessageOrder(msgs, i, |msgs[i].parts|, a - |newer|, b - |newer|);
      }
    }
  }

  /** Every candidate that stays is newer than every one given up. */
  ghost predicate MostRecentStays(msgs: seq<Message>) {
    forall p, q | Candidate(msgs, p) && p !in Chosen(msgs) && q in Chosen(msgs) :: Newer(p, q)
  }

  lemma AcrossABoundary(msgs: seq<Message>, a: nat, cut: nat, b: nat)
    requires a < cut <= b < |Candidates(msgs, 0)|
    requires Candidates(msgs, 0)[cut - 1].msg != Candidates(msgs, 0)[cut].msg
    ensures Newer(Candidates(msgs, 0)[a], Candidates(msgs, 0)[b])
  {
    hide Candidates;
    if a < cut - 1 { CandidateOrder(msgs, 0, a, cut - 1); }
    CandidateOrder(msgs, 0, cut - 1, cut);
    if cut < b { CandidateOrder(msgs, 0, cut, b); }
  }

  lemma BoundaryKeepsRecency(msgs: seq<Message>, kept: seq<Place>)
    requires kept + Chosen(msgs) == Candidates(msgs, 0) && kept != [] && Chosen(msgs) != []
    requires kept[|kept| - 1].msg != Chosen(msgs)[0].msg
    ensures MostRecentStays(msgs)
  {
    forall k, g | Candidate(msgs, k) && k !in Chosen(msgs) && g in Chosen(msgs)
      ensures Newer(k, g)
    {
      CandidatesHas(msgs, 0, k);
      hide *;
      KeptIsNewer(msgs, kept, Chosen(msgs), k, g);
    }
  }

  lemma KeptIsNewer(msgs: seq<Message>, kept: seq<Place>, gone: seq<Place>, k: Place, g: Place)
    requires kept + gone == Candidates(msgs, 0) && kept != [] && gone != []
    requires kept[|kept| - 1].msg != gone[0].msg
    requires k in Candidates(msgs, 0) && k !in gone && g in gone
    ensures Newer(k, g)
  {
    hide *;
    var all, cut := Candidates(msgs, 0), |kept|;
    assert all[cut - 1] == kept[cut - 1] && all[cut] == gone[0];
    assert k in kept;
    var a :| 0 <= a < cut && kept[a] == k;
    var b :| 0 <= b < |gone| && gone[b] == g;
    assert all[a] == k && all[cut + b] == g;
    AcrossABoundary(msgs, a, cut, cut + b);
  }

  /**
   The protected outputs are the most recent ones exactly when the cut does not fall between
   two outputs of one message.
   */
  lemma MostRecentStaysIff(msgs: seq<Message>)
    requires Chosen(msgs) != []
    ensures AllWithin(msgs, Candidates(msgs, 0)) && 0 < Cut(msgs, Candidates(msgs, 0)) < |Candidates(msgs, 0)|
    ensures var all, cut := Candidates(msgs, 0), Cut(msgs, Candidates(msgs, 0));
            MostRecentStays(msgs) <==> all[cut - 1].msg != all[cut].msg
  {
    ChosenIsTail(msgs);
    hide *;
    var all, gone, cut := Candidates(msgs, 0), Chosen(msgs), Cut(msgs, Candidates(msgs, 0));
    var kept := all[..cut];
    assert kept[cut - 1] == all[cut - 1] && all[cut] == gone[0];
    if all[cut - 1].msg != all[cut].msg {
      BoundaryKeepsRecency(msgs, kept);
    } else {
      SplitMessageLosesRecency(msgs, kept);
    }
  }

  lemma ChosenIsTail(msgs: seq<Message>)
    requires Chosen(msgs) != []
    ensures AllWithin(msgs, Candidates(msgs, 0)) && 0 < Cut(msgs, Candidates(msgs, 0)) < |Candidates(msgs, 0)|
    ensures var all, cut := Candidates(msgs, 0), Cut(msgs, Candidates(msgs, 0));
            Chosen(msgs) == all[cut..] && all[..cut] + Chosen(msgs) == all
  {
    var all := Candidates(msgs, 0);
    assert Sum(msgs, []) == 0;
    hide Candidates, Cut, Sum, Open, InMessage;
    CandidatesWithin(msgs, 0);
    CutIsLeast(msgs, all);
    assert all[..0] == [];
  }

  lemma SplitMessageLosesRecency(msgs: seq<Message>, kept: seq<Place>)
    requires kept + Chosen(msgs) == Candidates(msgs, 0) && kept != [] && Chosen(msgs) != []
    requires kept[|kept| - 1].msg == Chosen(msgs)[0].msg
    ensures !MostRecentStays(msgs)
  {
    var all, gone, cut := Candidates(msgs, 0), Chosen(msgs), |kept|;
    CandidatesDistinct(msgs, 0);
    CandidateOrder(msgs, 0, cut - 1, cut);
    CandidatesHas(msgs, 0, all[cut - 1]);
    hide Candidates, Chosen, Candidate;
    assert all[cut - 1] == kept[cut - 1] && all[cut] == gone[0];
    StaysApart(kept, gone, cut - 1);
    assert !Newer(kept[cut - 1], gone[0]);
  }

  /** A tool output of `tokens` tokens. */
  function Output(tokens: nat): Part {
    Tool("read", Completed, true, seq(4 * tokens, _ => 'x'), None)
  }

  function TwoOutputs(first: Part, second: Part): seq<Message> {
    [Message("a", Assistant(false), [first, second]), Message("b", User, []), Message("c", User, [])]
  }

  lemma BothCandidates(first: Part, second: Part)
    requires Prunable(first) && Prunable(second)
    ensures Candidates(TwoOutputs(first, second), 0) == [Place(0, 0), Place(0, 1)]
  {
    var msgs := TwoOutputs(first, second);
    assert Turns(msgs, 3) == 0 && Turns(msgs, 2) == 1;
    assert Turns(msgs, 1) == 2 && Turns(msgs, 0) == 2;
    assert Candidates(msgs, 3) == [] && InMessage(msgs, 2, 0) == [] && InMessage(msgs, 1, 0) == [];
    assert Candidates(msgs, 2) == [] && Candidates(msgs, 1) == [];
    assert InMessage(msgs, 0, 1) == [Place(0, 0)];
    assert InMessage(msgs, 0, 2) == [Place(0, 0), Place(0, 1)];
  }

  lemma SumOfOne(msgs: seq<Message>, p: Place)
    requires Within(msgs, p)
    ensures AllWithin(msgs, [p]) && Sum(msgs, [p]) == Tokens(msgs[p.msg].parts[p.part])
  {
    assert [p][..0] == [];
    assert Sum(msgs, []) == 0;
  }

  lemma CutAfterOne(msgs: seq<Message>, p: Place, q: Place)
    requires Within(msgs, p) && Within(msgs, q) && Tokens(msgs[p.msg].parts[p.part]) >= PROTECT
    ensures AllWithin(msgs, [p, q]) && Cut(msgs, [p, q]) == 1
  {
    SumOfOne(msgs, p);
    assert [p, q][..1] == [p] && [p, q][..0] == [];
    PastTheCutIff(msgs, [p, q], 1);
    PastTheCutIff(msgs, [p, q], 0);
  }

  /** The earlier of two outputs of one message stays and the later goes. */
  lemma OlderOutputStays(first: Part, second: Part)
    requires first == Output(PROTECT) && second == Output(MINIMUM + 1)
    ensures var msgs := TwoOutputs(first, second);
            Chosen(msgs) == [Place(0, 1)] && Candidate(msgs, Place(0, 0)) && !MostRecentStays(msgs)
  {
    assert Prunable(first) && Prunable(second);
    assert Tokens(first) == PROTECT && Tokens(second) == MINIMUM + 1;
    hide Output, Tokens;
    var msgs := TwoOutputs(first, second);
    BothCandidates(first, second);
    CandidatesHas(msgs, 0, Place(0, 0));
    assert Within(msgs, Place(0, 0)) && Within(msgs, Place(0, 1));
    CutAfterOne(msgs, Place(0, 0), Place(0, 1));
    SumOfOne(msgs, Place(0, 1));
    hide Candidates, Candidate, Cut, Sum;
    assert [Place(0, 0), Place(0, 1)][1..] == [Place(0, 1)];
    assert Chosen(msgs) == [Place(0, 1)];
    hide Chosen;
    assert !Newer(Place(0, 0), Place(0, 1));
  }
}
