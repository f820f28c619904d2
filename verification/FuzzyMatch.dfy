/** Fuzzy matching of a query against a path: what the greedy scan finds, and the ranking. */
module FuzzyMatch {
  import Lex
  import opened Sorting

  /** Bytes, as characters. */
  type Text = string

  /** What a call comes to; it panics when it reads past the end of a string or makes a slice of negative capacity. */
  datatype Outcome<T> = Panics | NoMatch | Ok(value: T)

  // ---------------------------------------------------------------------------
  // Subsequences
  // ---------------------------------------------------------------------------

  /** The characters of `q` stand at the places `at` of `t`, in this order. */
  predicate Embedding(at: seq<nat>, q: Text, t: Text) {
    && |at| == |q|
    && (forall i | 0 <= i < |at| :: at[i] < |t| && t[at[i]] == q[i])
    && forall i, j | 0 <= i < j < |at| :: at[i] < at[j]
  }

  ghost predicate Subsequence(q: Text, t: Text) {
    exists at :: Embedding(at, q, t)
  }

  ghost predicate Leftmost(at: seq<nat>, q: Text, t: Text) {
    && Embedding(at, q, t)
    && forall other | Embedding(other, q, t) :: forall i | 0 <= i < |at| :: at[i] <= other[i]
  }

  /** The leftmost embedding of the longest beginning of `q` that has one. */
  ghost predicate BestPrefix(at: seq<nat>, q: Text, t: Text) {
    && |at| <= |q| && Leftmost(at, q[..|at|], t)
    && (|at| < |q| ==> !Subsequence(q[..|at| + 1], t))
  }

  /** The places the scan has matched once it is past the first `n` characters. */
  function Greedy(q: Text, t: Text, n: nat): (at: seq<nat>)
    requires n <= |t|
    ensures |at| <= |q|
  {
    if n == 0 then []
    else
      var at := Greedy(q, t, n - 1);
      if |at| < |q| && t[n - 1] == q[|at|] then at + [n - 1] else at
  }

  lemma {:induction false} GreedyEmbeds(q: Text, t: Text, n: nat)
    requires n <= |t|
    ensures var at := Greedy(q, t, n);
            Embedding(at, q[..|at|], t) && forall i | 0 <= i < |at| :: at[i] < n
  {
    if n > 0 {
      GreedyEmbeds(q, t, n - 1);
    }
  }

  /** The scan is never behind another embedding of a beginning of the query. */
  lemma {:induction false} GreedyIsLeftmost(q: Text, t: Text, n: nat, m: nat, other: seq<nat>)
    requires n <= |t| && m <= |q| && Embedding(other, q[..m], t)
    ensures var at := Greedy(q, t, n);
            && (forall i | 0 <= i < |at| && i < m :: at[i] <= other[i])
            && (|at| < m ==> n <= other[|at|])
  {
    if n > 0 {
      GreedyIsLeftmost(q, t, n - 1, m, other);
      GreedyEmbeds(q, t, n - 1);
    }
  }

  lemma GreedyIsBest(q: Text, t: Text)
    ensures BestPrefix(Greedy(q, t, |t|), q, t)
  {
    GreedyEmbeds(q, t, |t|);
    var at := Greedy(q, t, |t|);
    forall other | Embedding(other, q[..|at|], t)
      ensures forall i | 0 <= i < |at| :: at[i] <= other[i]
    {
      GreedyIsLeftmost(q, t, |t|, |at|, other);
    }
    if |at| < |q| {
      var more := q[..|at| + 1];
      if other :| Embedding(other, more, t) {
        GreedyIsLeftmost(q, t, |t|, |at| + 1, other);
      }
    }
  }

  lemma OneBest(q: Text, t: Text, x: seq<nat>, y: seq<nat>)
    requires BestPrefix(x, q, t) && BestPrefix(y, q, t)
    ensures x == y
  {
    NotLonger(q, t, x, y);
    NotLonger(q, t, y, x);
    assert forall i | 0 <= i < |x| :: x[i] <= y[i] && y[i] <= x[i];
  }

  lemma NotLonger(q: Text, t: Text, x: seq<nat>, y: seq<nat>)
    requires BestPrefix(x, q, t) && BestPrefix(y, q, t)
    ensures |y| <= |x|
  {
    var n := |x| + 1;
    assert |y| >= n ==> Embedding(y[..n], q[..n], t);
  }

  /** The scan matches the whole query exactly when the query is a subsequence, and then leftmost. */
  lemma GreedyMatchesIff(q: Text, t: Text)
    ensures var at := Greedy(q, t, |t|);
            && (|at| == |q| <==> Subsequence(q, t))
            && (|at| == |q| ==> Leftmost(at, q, t))
  {
    GreedyIsBest(q, t);
    var at := Greedy(q, t, |t|);
    assert q[..|q|] == q;
    if other :| Embedding(other, q, t) {
      GreedyIsLeftmost(q, t, |t|, |q|, other);
    }
    hide Greedy;
    assert |at| == |q| ==> Embedding(at, q, t);
  }

  // ---------------------------------------------------------------------------
  // Scores
  // ---------------------------------------------------------------------------

  predicate IsSeparator(c: char) {
    c in ['/', '\\', '.', '-', '_', ' ']
  }

  /** Whether looking at `i` for a boundary stays inside the string. */
  predicate Readable(s: Text, i: nat) {
    i == 0 || (i - 1 < |s| && (IsSeparator(s[i - 1]) || i < |s|))
  }

  predicate IsBoundary(s: Text, i: nat)
    requires Readable(s, i)
  {
    || i == 0
    || IsSeparator(s[i - 1])
    || ('A' <= s[i] <= 'Z' && 'a' <= s[i - 1] <= 'z')
  }

  /** What a match at `i` adds when the one before it was at `prev`. */
  function Gain(text: Text, prev: int, i: nat): int
    requires Readable(text, i)
  {
    1 + (if i == prev + 1 then 5 else 0) + (if IsBoundary(text, i) then 8 else 0)
  }

  function Last(at: seq<nat>): int {
    if at == [] then -2 else at[|at| - 1]
  }

  predicate AllReadable(at: seq<nat>, text: Text) {
    forall i | 0 <= i < |at| :: Readable(text, at[i])
  }

  /** What a list of matched places is worth. */
  function Points(text: Text, at: seq<nat>): int
    requires AllReadable(at, text)
  {
    if at == [] then 0
    else Points(text, at[..|at| - 1]) + Gain(text, Last(at[..|at| - 1]), at[|at| - 1])
  }

  /** The `i`-th matched place is right behind the one before. */
  predicate Adjoins(at: seq<nat>, i: nat)
    requires i < |at|
  {
    i > 0 && at[i] == at[i - 1] + 1
  }

  /** Of the first `n` matched places, those right behind the one before. */
  function InRuns(at: seq<nat>, n: nat): set<nat>
    requires n <= |at|
  {
    set i: nat | i < n && Adjoins(at, i)
  }

  /** A word starts at `i`: the text does, or a separator is before it, or a lower-case letter before a capital. */
  predicate StartsWord(text: Text, i: nat) {
    || i == 0
    || (i - 1 < |text| && text[i - 1] in "/\\.-_ ")
    || (i < |text| && 0x41 <= text[i] as int <= 0x5A && 0x61 <= text[i - 1] as int <= 0x7A)
  }

  /** Of the first `n` matched places, those that start a word. */
  function AtStarts(text: Text, at: seq<nat>, n: nat): set<nat>
    requires n <= |at|
  {
    set i: nat | i < n && StartsWord(text, at[i])
  }

  lemma BoundaryIsStart(text: Text, i: nat)
    requires Readable(text, i)
    ensures IsBoundary(text, i) <==> StartsWord(text, i)
  {
  }

  lemma OneMorePlace(text: Text, at: seq<nat>, n: nat)
    requires n < |at|
    ensures InRuns(at, n + 1) == InRuns(at, n) + if Adjoins(at, n) then {n} else {}
    ensures AtStarts(text, at, n + 1) == AtStarts(text, at, n) + if StartsWord(text, at[n]) then {n} else {}
    ensures n !in InRuns(at, n) && n !in AtStarts(text, at, n)
  {
    hide StartsWord, Adjoins;
  }

  lemma {:induction false} PointsOfFirst(text: Text, at: seq<nat>, n: nat)
    requires AllReadable(at, text) && n <= |at|
    ensures AllReadable(at[..n], text)
    ensures Points(text, at[..n]) == n + 5 * |InRuns(at, n)| + 8 * |AtStarts(text, at, n)|
  {
    if n > 0 {
      PointsOfFirst(text, at, n - 1);
      OneMorePlace(text, at, n - 1);
      BoundaryIsStart(text, at[n - 1]);
      hide InRuns, AtStarts, StartsWord, IsBoundary, Readable;
      assert at[..n][..n - 1] == at[..n - 1];
      assert Last(at[..n - 1]) == if n == 1 then -2 else at[n - 2];
    }
  }

  /**
   A match is worth one for every character, five for each right behind the one before, and eight
   for each that starts a word.
   */
  lemma PointsAre(text: Text, at: seq<nat>)
    requires AllReadable(at, text)
    ensures Points(text, at) == |at| + 5 * |InRuns(at, |at|)| + 8 * |AtStarts(text, at, |at|)|
  {
    PointsOfFirst(text, at, |at|);
    assert at[..|at|] == at;
  }

  /** What the matched places come to: they are found in the lowered text and looked up in the text itself. */
  function Verdict(q: Text, text: Text, at: seq<nat>): Outcome<int> {
    if !AllReadable(at, text) then Panics
    else if |at| < |q| then NoMatch
    else Ok(Points(text, at))
  }

  /** The score of a lowered query in a text: the worth of its leftmost embedding in the lowered text. */
  ghost predicate IsScore(q: Text, text: Text, lowered: Text, score: Outcome<int>) {
    exists at :: BestPrefix(at, q, lowered) && score == Verdict(q, text, at)
  }

  function Score(q: Text, text: Text, lowered: Text): Outcome<int> {
    Verdict(q, text, Greedy(q, lowered, |lowered|))
  }

  lemma ScoreIsLeftmost(q: Text, text: Text, lowered: Text)
    ensures IsScore(q, text, lowered, Score(q, text, lowered))
  {
    GreedyIsBest(q, lowered);
  }

  /** There is only one such score. */
  lemma OneScore(q: Text, text: Text, lowered: Text, a: Outcome<int>, b: Outcome<int>)
    requires IsScore(q, text, lowered, a) && IsScore(q, text, lowered, b)
    ensures a == b
  {
    hide BestPrefix, Verdict;
    var x :| BestPrefix(x, q, lowered) && a == Verdict(q, text, x);
    var y :| BestPrefix(y, q, lowered) && b == Verdict(q, text, y);
    OneBest(q, lowered, x, y);
  }

  lemma ScoredIff(q: Text, text: Text, lowered: Text)
    requires !Score(q, text, lowered).Panics?
    ensures Score(q, text, lowered).Ok? <==> Subsequence(q, lowered)
  {
    GreedyMatchesIff(q, lowered);
  }

  lemma {:induction false} GreedyOfPrefix(t: Text, m: nat, n: nat)
    requires n <= m <= |t|
    ensures var at := Greedy(t[..m], t, n);
            |at| == n && forall i | 0 <= i < n :: at[i] == i
  {
    if n > 0 {
      GreedyOfPrefix(t, m, n - 1);
    }
  }

  lemma {:induction false} GreedyGoesOn(q: Text, t: Text, m: nat, n: nat)
    requires m <= n <= |t|
    ensures Greedy(q, t, m) <= Greedy(q, t, n)
    decreases n - m
  {
    if m < n {
      GreedyGoesOn(q, t, m, n - 1);
    }
  }

  /** Lowering made the text longer by too much to look its places up in the text. */
  predicate Outgrown(text: Text, lowered: Text) {
    |lowered| > |text| && !(|lowered| == |text| + 1 && (text == [] || IsSeparator(text[|text| - 1])))
  }

  /** Some query makes the scan panic exactly when lowering made the text too long. */
  lemma PanicsIff(text: Text, lowered: Text)
    ensures (exists q :: Score(q, text, lowered).Panics?) <==> Outgrown(text, lowered)
  {
    if Outgrown(text, lowered) {
      var i := if |lowered| == |text| + 1 then |text| else |text| + 1;
      assert i < |lowered| && !Readable(text, i);
      var q := lowered[..i + 1];
      GreedyOfPrefix(lowered, i + 1, i + 1);
      GreedyGoesOn(q, lowered, i + 1, |lowered|);
      assert Greedy(q, lowered, |lowered|)[i] == i;
      assert Score(q, text, lowered).Panics?;
    } else {
      forall q
        ensures !Score(q, text, lowered).Panics?
      {
        GreedyEmbeds(q, lowered, |lowered|);
        assert forall i: nat | i < |lowered| :: Readable(text, i);
      }
    }
  }

  /** The lowered text as a query of its own panics exactly then, so a user can type one. */
  lemma OwnTextPanicsIff(text: Text, lowered: Text)
    ensures Score(lowered, text, lowered).Panics? <==> Outgrown(text, lowered)
  {
    PanicsIff(text, lowered);
    if Outgrown(text, lowered) {
      var i := if |lowered| == |text| + 1 then |text| else |text| + 1;
      assert i < |lowered| && !Readable(text, i);
      GreedyOfPrefix(lowered, |lowered|, |lowered|);
      assert lowered[..|lowered|] == lowered;
      assert Greedy(lowered, lowered, |lowered|)[i] == i;
    }
  }

  /** The letter U+023A has two bytes and its lower case U+2C65 three: a query for it panics. */
  lemma LetterPanics(text: Text, lowered: Text)
    requires text == [200 as char, 186 as char] && lowered == [226 as char, 177 as char, 165 as char]
    ensures Score(lowered, text, lowered).Panics?
  {
    GreedyOfPrefix(lowered, 3, 3);
    assert lowered[..3] == lowered;
    assert Greedy(lowered, lowered, 3)[2] == 2 && !Readable(text, 2);
  }

  method GainAt(text: Text, prev: int, i: nat) returns (gain: int)
    requires Readable(text, i)
    ensures gain == Gain(text, prev, i)
  {
    gain := 1;
    if i == prev + 1 {
      gain := gain + 5;
    }
    if IsBoundary(text, i) {
      gain := gain + 8;
    }
  }

  lemma ScanOne(q: Text, text: Text, lowered: Text, n: nat)
    requires n < |lowered| && AllReadable(Greedy(q, lowered, n), text)
    ensures var at, next := Greedy(q, lowered, n), Greedy(q, lowered, n + 1);
            && next == (if |at| < |q| && lowered[n] == q[|at|] then at + [n] else at)
            && (next != at ==>
                  && (AllReadable(next, text) <==> Readable(text, n))
                  && Last(next) == n
                  && (Readable(text, n) ==> Points(text, next) == Points(text, at) + Gain(text, Last(at), n)))
  {
    var at := Greedy(q, lowered, n);
    assert (at + [n])[..|at|] == at && (at + [n])[|at|] == n;
    if Greedy(q, lowered, n + 1) != at && Readable(text, n) {
      assert AllReadable(at + [n], text);
    }
  }

  method SubseqScore(query: Text, text: Text, lowered: Text) returns (score: Outcome<int>)
    ensures score == Score(query, text, lowered)
  {
    var total: int, qi: nat, prevMatch: int, ti: nat := 0, 0, -2, 0;
    ghost var at: seq<nat> := [];
    assert Greedy(query, lowered, 0) == [] && Points(text, []) == 0 && Last([]) == -2;
    hide Greedy, Points, Last, Gain, Score, Readable, AllReadable;
    while ti < |lowered| && qi < |query|
      invariant ti <= |lowered| && at == Greedy(query, lowered, ti) && qi == |at| && prevMatch == Last(at)
      invariant AllReadable(at, text) && total == Points(text, at)
    {
      ScanOne(query, text, lowered, ti);
      at := Greedy(query, lowered, ti + 1);
      if lowered[ti] == query[qi] {
        if !Readable(text, ti) {
          PanicStays(query, text, lowered, ti + 1);
          return Panics;
        }
        var gain := GainAt(text, prevMatch, ti);
        total := total + gain;
        prevMatch := ti;
        qi := qi + 1;
      }
      ti := ti + 1;
    }
    score := if qi != |query| then NoMatch else Ok(total);
    ScanDone(query, text, lowered, ti);
  }

  lemma PanicStays(q: Text, text: Text, lowered: Text, n: nat)
    requires n <= |lowered| && !AllReadable(Greedy(q, lowered, n), text)
    ensures Score(q, text, lowered).Panics?
  {
    GreedyGoesOn(q, lowered, n, |lowered|);
    hide Greedy, Readable;
  }

  lemma ScanDone(q: Text, text: Text, lowered: Text, n: nat)
    requires n <= |lowered| && (n == |lowered| || |Greedy(q, lowered, n)| == |q|)
    ensures Score(q, text, lowered) == Verdict(q, text, Greedy(q, lowered, n))
  {
    if n < |lowered| {
      GreedyDone(q, lowered, n);
    }
  }

  lemma {:induction false} GreedyDone(q: Text, t: Text, n: nat)
    requires n <= |t| && |Greedy(q, t, n)| == |q|
    ensures Greedy(q, t, |t|) == Greedy(q, t, n)
    decreases |t| - n
  {
    if n < |t| {
      GreedyDone(q, t, n + 1);
    }
  }

  const BASENAME_BONUS := 30

  /** The place after the last slash. */
  function BaseStart(target: Text): (n: nat)
    ensures n <= |target|
  {
    if target == [] then 0
    else if target[|target| - 1] == '/' then |target|
    else BaseStart(target[..|target| - 1])
  }

  /** The better of the scores in the last segment, with its bonus, and in the whole path. */
  function Best(inBase: Outcome<int>, inPath: Outcome<int>): Outcome<int> {
    if inBase.Panics? || inPath.Panics? then Panics
    else if inBase.NoMatch? then inPath
    else if inPath.Ok? && inPath.value > inBase.value + BASENAME_BONUS then inPath
    else Ok(inBase.value + BASENAME_BONUS)
  }

  /** `lower` is the library's lower-casing, which may change the length of a text. */
  function FuzzyScore(query: Text, target: Text, lower: Text -> Text): Outcome<int> {
    if query == [] then Ok(0)
    else
      var base := target[BaseStart(target)..];
      match Best(Score(query, base, lower(base)), Score(query, target, lower(target)))
      case Ok(best) => Ok(best - |target| / 8)
      case out => out
  }

  /** The last segment begins behind the last slash. */
  lemma {:induction false} BaseIsLastSegment(target: Text)
    ensures '/' !in target[BaseStart(target)..]
    ensures BaseStart(target) == 0 || target[BaseStart(target) - 1] == '/'
  {
    if target != [] && target[|target| - 1] != '/' {
      var n := |target| - 1;
      BaseIsLastSegment(target[..n]);
      var k := BaseStart(target[..n]);
      assert target[k..] == target[..n][k..] + [target[n]];
    }
  }

  /**
   A path's score is the better of what its last segment comes to, with 30 more, and what the whole
   path comes to, less one for every eight bytes of it. It has none exactly if neither has.
   */
  lemma ScoreIsBetter(query: Text, target: Text, lower: Text -> Text)
    requires query != [] && !FuzzyScore(query, target, lower).Panics?
    ensures var base := target[BaseStart(target)..];
            var a, b := Score(query, base, lower(base)), Score(query, target, lower(target));
            var r := FuzzyScore(query, target, lower);
            && (r.Ok? <==> a.Ok? || b.Ok?)
            && (r.Ok? ==>
                  var best := r.value + |target| / 8;
                  && ((a.Ok? && best == a.value + 30) || (b.Ok? && best == b.value))
                  && (a.Ok? ==> best >= a.value + 30) && (b.Ok? ==> best >= b.value))
  {
    hide Score;
  }

  lemma EmbedsInSuffix(at: seq<nat>, q: Text, a: Text, b: Text)
    requires Embedding(at, q, b)
    ensures Subsequence(q, a + b)
  {
    var there: seq<nat> := seq(|at|, i requires 0 <= i < |at| => |a| + at[i]);
    assert Embedding(there, q, a + b);
  }

  /** Lower-casing works on each side of the last slash by itself. */
  predicate LowersApart(target: Text, lower: Text -> Text) {
    var n := BaseStart(target);
    lower(target) == lower(target[..n]) + lower(target[n..])
  }

  /** Unless it panics, a path is accepted exactly when the query is a subsequence of the whole lowered path. */
  lemma FuzzyAcceptsIff(query: Text, target: Text, lower: Text -> Text)
    requires LowersApart(target, lower) && !FuzzyScore(query, target, lower).Panics?
    ensures FuzzyScore(query, target, lower).Ok? <==> Subsequence(query, lower(target))
  {
    if query == [] {
      assert Embedding([], query, lower(target));
    } else {
      var n := BaseStart(target);
      var base := target[n..];
      ScoredIff(query, base, lower(base));
      ScoredIff(query, target, lower(target));
      hide Score;
      if Subsequence(query, lower(base)) {
        var at :| Embedding(at, query, lower(base));
        EmbedsInSuffix(at, query, lower(target[..n]), lower(base));
      }
      hide Subsequence;
    }
  }

  // ---------------------------------------------------------------------------
  // ASCII
  // ---------------------------------------------------------------------------

  function LowerAscii(s: Text): (r: Text)
    ensures |r| == |s|
  {
    seq(|s|, i requires 0 <= i < |s| => if 'A' <= s[i] <= 'Z' then s[i] - 'A' + 'a' else s[i])
  }

  /** On ASCII text nothing panics, and the accepted paths are exactly those that contain the query as a subsequence. */
  lemma AsciiAcceptsIff(query: Text, target: Text)
    ensures !FuzzyScore(query, target, LowerAscii).Panics?
    ensures FuzzyScore(query, target, LowerAscii).Ok? <==> Subsequence(query, LowerAscii(target))
  {
    var n := BaseStart(target);
    assert target == target[..n] + target[n..];
    assert LowersApart(target, LowerAscii);
    PanicsIff(target[n..], LowerAscii(target[n..]));
    PanicsIff(target, LowerAscii(target));
    hide Score, LowerAscii, LowersApart;
    assert !FuzzyScore(query, target, LowerAscii).Panics?;
    FuzzyAcceptsIff(query, target, LowerAscii);
  }

  // ---------------------------------------------------------------------------
  // Ranking
  // ---------------------------------------------------------------------------

  datatype Scored = Scored(item: Text, score: int)

  /** `a` does not rank after `b`. */
  predicate NotAfter(a: Scored, b: Scored) {
    if a.score != b.score then a.score > b.score
    else if |a.item| != |b.item| then |a.item| < |b.item|
    else !Lex.Less(b.item, a.item)
  }

  lemma NotAfterTransitive(a: Scored, b: Scored, c: Scored)
    requires NotAfter(a, b) && NotAfter(b, c)
    ensures NotAfter(a, c)
  {
    if Lex.Less(c.item, a.item) {
      Lex.Total(a.item, b.item);
      if Lex.Less(a.item, b.item) {
        Lex.Transitive(c.item, a.item, b.item);
      }
    }
  }

  /** Only equal entries tie, so the ranking is a total order. */
  lemma RankingIsTotal()
    ensures TotalOrder(NotAfter)
  {
    forall a, b
      ensures NotAfter(a, b) || NotAfter(b, a)
      ensures NotAfter(a, b) && NotAfter(b, a) ==> a == b
    {
      Lex.Total(a.item, b.item);
      if Lex.Less(a.item, b.item) && Lex.Less(b.item, a.item) {
        Lex.Transitive(a.item, b.item, a.item);
        Lex.Irreflexive(a.item);
      }
    }
    forall a, b, c | NotAfter(a, b) && NotAfter(b, c)
      ensures NotAfter(a, c)
    {
      NotAfterTransitive(a, b, c);
    }
  }

  /** The accepted items with their scores, in the order of the items. */
  function Matches(q: Text, items: seq<Text>, lower: Text -> Text): seq<Scored> {
    if items == [] then []
    else
      var n := |items| - 1;
      Matches(q, items[..n], lower) +
      match FuzzyScore(q, items[n], lower) { case Ok(s) => [Scored(items[n], s)] case _ => [] }
  }

  function Items(s: seq<Scored>): (r: seq<Text>)
    ensures |r| == |s| && forall i | 0 <= i < |s| :: r[i] == s[i].item
  {
    Map(s, (x: Scored) => x.item)
  }

  /** The first `limit` matches, or all if there are fewer, no match left out ranking before them. */
  ghost predicate Top(q: Text, items: seq<Text>, lower: Text -> Text, limit: nat, out: seq<Text>) {
    exists kept, rest ::
      && multiset(kept + rest) == multiset(Matches(q, items, lower)) && Sorted(kept + rest, NotAfter)
      && out == Items(kept) && |kept| == (if limit < |kept + rest| then limit else |kept + rest|)
  }

  /** Some item's score panics. */
  predicate AnyPanics(q: Text, items: seq<Text>, lower: Text -> Text) {
    exists item :: item in items && FuzzyScore(q, item, lower).Panics?
  }

  /** The whole path or its last segment outgrows itself. */
  predicate ItemOutgrown(item: Text, lower: Text -> Text) {
    var base := item[BaseStart(item)..];
    Outgrown(item, lower(item)) || Outgrown(base, lower(base))
  }

  lemma ItemPanics(q: Text, item: Text, lower: Text -> Text)
    requires FuzzyScore(q, item, lower).Panics?
    ensures ItemOutgrown(item, lower)
  {
    var base := item[BaseStart(item)..];
    PanicsIff(item, lower(item));
    PanicsIff(base, lower(base));
    hide Score, Outgrown;
  }

  lemma ItemOutgrownPanics(item: Text, lower: Text -> Text) returns (query: Text)
    requires ItemOutgrown(item, lower)
    ensures FuzzyScore(lower(query), item, lower).Panics?
  {
    var base := item[BaseStart(item)..];
    OwnTextPanicsIff(item, lower(item));
    OwnTextPanicsIff(base, lower(base));
    query := if Outgrown(item, lower(item)) then item else base;
    assert Outgrown(query, lower(query)) ==> lower(query) != [];
    hide Score, Outgrown;
  }

  /** Some query, lowered, makes the ranking panic exactly when an item or its last segment outgrows itself. */
  lemma AnyPanicsIff(items: seq<Text>, lower: Text -> Text)
    ensures (exists query :: AnyPanics(lower(query), items, lower)) <==>
            exists item :: item in items && ItemOutgrown(item, lower)
  {
    hide FuzzyScore, ItemOutgrown;
    if query :| AnyPanics(lower(query), items, lower) {
      var item :| item in items && FuzzyScore(lower(query), item, lower).Panics?;
      ItemPanics(lower(query), item, lower);
    }
    if item :| item in items && ItemOutgrown(item, lower) {
      var query := ItemOutgrownPanics(item, lower);
      assert AnyPanics(lower(query), items, lower);
    }
  }

  method FindMatches(q: Text, items: seq<Text>, lower: Text -> Text) returns (matches: Outcome<seq<Scored>>)
    ensures matches == if AnyPanics(q, items, lower) then Panics else Ok(Matches(q, items, lower))
  {
    hide FuzzyScore;
    var found: seq<Scored> := [];
    for i := 0 to |items|
      invariant found == Matches(q, items[..i], lower)
      invariant forall k | 0 <= k < i :: !FuzzyScore(q, items[k], lower).Panics?
    {
      assert items[..i + 1][..i] == items[..i];
      var s := FuzzyScore(q, items[i], lower);
      if s.Panics? {
        assert items[i] in items;
        return Panics;
      }
      if s.Ok? {
        found := found + [Scored(items[i], s.value)];
      }
    }
    assert items[..|items|] == items;
    matches := Ok(found);
  }

  /** Panics on an item whose score does, and on a negative limit. */
  method RankFuzzy(query: Text, items: seq<Text>, lower: Text -> Text, limit: int) returns (out: Outcome<seq<Text>>)
    ensures out.Panics? <==> limit < 0 || AnyPanics(lower(query), items, lower)
    ensures !out.Panics? ==> out.Ok? && Top(lower(query), items, lower, limit, out.value)
  {
    hide Matches, NotAfter, FuzzyScore, AnyPanics;
    var matches := FindMatches(lower(query), items, lower);
    if matches.Panics? || limit < 0 {
      return Panics;
    }
    RankingIsTotal();
    var sorted := Sort(matches.value, NotAfter);
    hide *;
    var top := TakeItems(sorted, limit);
    TopOfSorted(lower(query), items, lower, limit, sorted);
    out := Ok(top);
  }

  method TakeItems(sorted: seq<Scored>, limit: nat) returns (top: seq<Text>)
    ensures top == Items(sorted[..if limit < |sorted| then limit else |sorted|])
  {
    top := [];
    var k := 0;
    while k < |sorted| && |top| != limit
      invariant k == |top| <= |sorted| && k <= limit && top == Items(sorted[..k])
    {
      assert sorted[..k + 1] == sorted[..k] + [sorted[k]];
      top := top + [sorted[k].item];
      k := k + 1;
    }
  }

  lemma TopOfSorted(q: Text, items: seq<Text>, lower: Text -> Text, limit: nat, sorted: seq<Scored>)
    requires multiset(sorted) == multiset(Matches(q, items, lower)) && Sorted(sorted, NotAfter)
    ensures Top(q, items, lower, limit, Items(sorted[..if limit < |sorted| then limit else |sorted|]))
  {
    hide Matches, NotAfter, Sorted, Items;
    var n := if limit < |sorted| then limit else |sorted|;
    assert sorted[..n] + sorted[n..] == sorted;
  }

  lemma {:induction false} MatchesSplit(q: Text, a: seq<Text>, b: seq<Text>, lower: Text -> Text)
    ensures Matches(q, a + b, lower) == Matches(q, a, lower) + Matches(q, b, lower)
  {
    hide FuzzyScore;
    if b == [] {
      assert a + b == a;
    } else {
      var n := |b| - 1;
      assert (a + b)[..|a| + n] == a + b[..n];
      MatchesSplit(q, a, b[..n], lower);
    }
  }

  lemma AddMatch(q: Text, l: seq<Text>, x: Text, r: seq<Text>, lower: Text -> Text)
    ensures multiset(Matches(q, l + [x] + r, lower)) ==
            multiset(Matches(q, l + r, lower)) + multiset(Matches(q, [x], lower))
  {
    hide Matches;
    MatchesSplit(q, l + [x], r, lower);
    MatchesSplit(q, l, [x], lower);
    MatchesSplit(q, l, r, lower);
  }

  lemma {:induction false} MatchesPermute(q: Text, a: seq<Text>, b: seq<Text>, lower: Text -> Text)
    requires multiset(a) == multiset(b)
    ensures multiset(Matches(q, a, lower)) == multiset(Matches(q, b, lower))
  {
    if a == [] {
      assert |multiset(b)| == |b|;
      assert b == [];
    } else {
      hide Matches;
      var n, x := |a| - 1, a[|a| - 1];
      assert a == a[..n] + [x] == a[..n] + [x] + [] && a[..n] + [] == a[..n];
      assert x in multiset(b);
      var j :| 0 <= j < |b| && b[j] == x;
      var l, r := b[..j], b[j + 1..];
      assert b == l + [x] + r;
      TakeOut(a[..n], l, r, x);
      MatchesPermute(q, a[..n], l + r, lower);
      AddMatch(q, a[..n], x, [], lower);
      AddMatch(q, l, x, r, lower);
    }
  }

  /** The result does not depend on the order the items come in. */
  lemma RankingIgnoresOrder(q: Text, a: seq<Text>, b: seq<Text>, lower: Text -> Text, limit: nat,
                            x: seq<Text>, y: seq<Text>)
    requires multiset(a) == multiset(b)
    requires Top(q, a, lower, limit, x) && Top(q, b, lower, limit, y)
    ensures x == y
  {
    MatchesPermute(q, a, b, lower);
    RankingIsTotal();
    hide Matches, NotAfter;
    var kept, rest :|
      && multiset(kept + rest) == multiset(Matches(q, a, lower)) && Sorted(kept + rest, NotAfter)
      && x == Items(kept) && |kept| == (if limit < |kept + rest| then limit else |kept + rest|);
    var kept', rest' :|
      && multiset(kept' + rest') == multiset(Matches(q, b, lower)) && Sorted(kept' + rest', NotAfter)
      && y == Items(kept') && |kept'| == (if limit < |kept' + rest'| then limit else |kept' + rest'|);
    OneSortedOrder(kept + rest, kept' + rest', NotAfter);
    assert kept == (kept + rest)[..|kept|] == (kept' + rest')[..|kept'|] == kept';
  }

  lemma {:induction false} MatchesAre(q: Text, items: seq<Text>, lower: Text -> Text, x: Scored)
    ensures x in Matches(q, items, lower) <==> x.item in items && FuzzyScore(q, x.item, lower) == Ok(x.score)
  {
    hide FuzzyScore;
    if items != [] {
      var n := |items| - 1;
      MatchesAre(q, items[..n], lower, x);
      assert items == items[..n] + [items[n]];
    }
  }

  /** `x` is shown before `y`: it scores higher, or as much and is shorter, or is as long and lower in the alphabet. */
  ghost predicate Outranks(x: Text, y: Text, q: Text, lower: Text -> Text) {
    var a, b := FuzzyScore(q, x, lower), FuzzyScore(q, y, lower);
    && a.Ok? && b.Ok?
    && (|| a.value > b.value
        || (a.value == b.value && |x| < |y|)
        || (a.value == b.value && |x| == |y| && (x == y || exists k :: Lex.DiffersAt(x, y, k))))
  }

  lemma NotAfterOutranks(q: Text, items: seq<Text>, lower: Text -> Text, x: Scored, y: Scored)
    requires NotAfter(x, y) && x in Matches(q, items, lower) && y in Matches(q, items, lower)
    ensures Outranks(x.item, y.item, q, lower)
  {
    MatchesAre(q, items, lower, x);
    MatchesAre(q, items, lower, y);
    Lex.Total(x.item, y.item);
    Lex.LessIff(x.item, y.item);
    hide FuzzyScore, Matches, Lex.Less, Lex.DiffersAt;
  }

  /** The matches in the order shown: what is accepted, each with its score, ranked. */
  ghost predicate Ranked(all: seq<Scored>, q: Text, items: seq<Text>, lower: Text -> Text) {
    multiset(all) == multiset(Matches(q, items, lower)) && Sorted(all, NotAfter)
  }

  lemma RankedHas(all: seq<Scored>, q: Text, items: seq<Text>, lower: Text -> Text, x: Text)
    requires Ranked(all, q, items, lower)
    ensures x in items && FuzzyScore(q, x, lower).Ok? <==> exists j :: 0 <= j < |all| && all[j].item == x
  {
    hide FuzzyScore, NotAfter, Matches;
    if x in items && FuzzyScore(q, x, lower).Ok? {
      var m := Scored(x, FuzzyScore(q, x, lower).value);
      MatchesAre(q, items, lower, m);
      assert m in multiset(all);
      var j :| 0 <= j < |all| && all[j] == m;
    }
    if j :| 0 <= j < |all| && all[j].item == x {
      assert all[j] in multiset(all);
      MatchesAre(q, items, lower, all[j]);
    }
  }

  lemma RankedOutranks(all: seq<Scored>, q: Text, items: seq<Text>, lower: Text -> Text, i: nat, j: nat)
    requires Ranked(all, q, items, lower) && i < j < |all|
    ensures Outranks(all[i].item, all[j].item, q, lower)
  {
    hide FuzzyScore, NotAfter, Matches, Outranks;
    assert all[i] in multiset(all) && all[j] in multiset(all);
    NotAfterOutranks(q, items, lower, all[i], all[j]);
  }

  /** `out` are the first items of `all`. */
  predicate Begins(out: seq<Text>, all: seq<Scored>) {
    |out| <= |all| && forall i | 0 <= i < |out| :: all[i].item == out[i]
  }

  lemma TopBegins(q: Text, items: seq<Text>, lower: Text -> Text, limit: nat, out: seq<Text>) returns (all: seq<Scored>)
    requires Top(q, items, lower, limit, out)
    ensures Ranked(all, q, items, lower) && Begins(out, all)
    ensures |out| == if limit < |all| then limit else |all|
  {
    hide Matches, NotAfter, Sorted;
    var kept: seq<Scored>, rest: seq<Scored> :|
      && multiset(kept + rest) == multiset(Matches(q, items, lower)) && Sorted(kept + rest, NotAfter)
      && out == Items(kept) && |kept| == (if limit < |kept + rest| then limit else |kept + rest|);
    all := kept + rest;
  }

  lemma ShownAreAccepted(q: Text, items: seq<Text>, lower: Text -> Text, all: seq<Scored>, out: seq<Text>, x: Text)
    requires Ranked(all, q, items, lower) && Begins(out, all)
    ensures x in out ==> x in items && FuzzyScore(q, x, lower).Ok?
    ensures |out| == |all| && x in items && FuzzyScore(q, x, lower).Ok? ==> x in out
  {
    RankedHas(all, q, items, lower, x);
    hide FuzzyScore, Ranked;
    if x in out {
      var i :| 0 <= i < |out| && out[i] == x;
      assert all[i].item == x;
    }
    if j :| 0 <= j < |all| && all[j].item == x {
      assert |out| == |all| ==> out[j] == x;
    }
  }

  lemma ShownOutranksRest(q: Text, items: seq<Text>, lower: Text -> Text, all: seq<Scored>, out: seq<Text>,
                          x: Text, y: Text)
    requires Ranked(all, q, items, lower) && Begins(out, all)
    requires x in out && y in items && y !in out && FuzzyScore(q, y, lower).Ok?
    ensures Outranks(x, y, q, lower)
  {
    RankedHas(all, q, items, lower, y);
    hide FuzzyScore, Ranked, Outranks;
    var i :| 0 <= i < |out| && out[i] == x;
    var j :| 0 <= j < |all| && all[j].item == y;
    assert forall k | 0 <= k < |out| :: out[k] in out && all[k].item != y;
    RankedOutranks(all, q, items, lower, i, j);
  }

  /**
   What is shown are items that the query accepts, each outranking those after it and all that are
   accepted and left out; none is left out unless the limit is reached.
   */
  lemma TopOutranks(q: Text, items: seq<Text>, lower: Text -> Text, limit: nat, out: seq<Text>)
    requires Top(q, items, lower, limit, out)
    ensures |out| <= limit
    ensures forall x | x in out :: x in items && FuzzyScore(q, x, lower).Ok?
    ensures forall i, j | 0 <= i < j < |out| :: Outranks(out[i], out[j], q, lower)
    ensures forall x, y | x in out && y in items && y !in out && FuzzyScore(q, y, lower).Ok? :: Outranks(x, y, q, lower)
    ensures |out| < limit ==> forall x | x in items && FuzzyScore(q, x, lower).Ok? :: x in out
  {
    var all := TopBegins(q, items, lower, limit, out);
    hide FuzzyScore, Ranked, Outranks, Top, Begins;
    forall x
      ensures x in out ==> x in items && FuzzyScore(q, x, lower).Ok?
      ensures |out| < limit && x in items && FuzzyScore(q, x, lower).Ok? ==> x in out
    {
      ShownAreAccepted(q, items, lower, all, out, x);
    }
    forall i, j | 0 <= i < j < |out|
      ensures Outranks(out[i], out[j], q, lower)
    {
      BeginsAt(out, all, i);
      BeginsAt(out, all, j);
      RankedOutranks(all, q, items, lower, i, j);
    }
    forall x, y | x in out && y in items && y !in out && FuzzyScore(q, y, lower).Ok?
      ensures Outranks(x, y, q, lower)
    {
      ShownOutranksRest(q, items, lower, all, out, x, y);
    }
  }

  lemma BeginsAt(out: seq<Text>, all: seq<Scored>, i: nat)
    requires Begins(out, all) && i < |out|
    ensures i < |all| && all[i].item == out[i]
  {
  }
}
