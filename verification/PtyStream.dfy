/**
 What a PTY session does to its state, critical section by critical section, and what
 holds after every run of them: the ring buffer is a window on the emitted text, and
 every subscriber sees one contiguous slice of it.
 */
module PtyStream {
  import opened Utf8
  import opened Utf16
  import opened PtyDecoder

  /** Retained output and replay slice, in UTF-16 units; depth of a subscriber's queue, in frames. */
  const BUFFER_LIMIT: nat := 2 * 1024 * 1024
  const BUFFER_CHUNK: nat := 64 * 1024
  const SUB_BUFFER: nat := 256

  /**
   One subscriber's channel. `queue` and `closed` are the channel itself; the rest is
   history: what was asked for and replayed when it was made, and what was taken from it.
   */
  datatype Link = Link(
    asked: int, oldest: nat, end: nat, replay: seq<Unit>,
    taken: seq<Text>, queue: seq<Text>, closed: bool)
  {
    function Live(): seq<Text> {
      taken + queue
    }

    /** Where in the emitted text the replay starts. */
    function Base(): int {
      end - |replay|
    }

    /** Every unit this subscriber was ever given. */
    function Stream(): seq<Unit> {
      replay + UnitsOf(Live())
    }
  }

  /** `chunks` is history: the raw reads so far. */
  datatype State = State(
    buffer: seq<Unit>, bufCur: nat, cursor: nat, partial: Text,
    subs: set<nat>, nextSub: nat, exited: bool,
    links: map<nat, Link>, chunks: seq<Text>)

  function UnitsOf(texts: seq<Text>): seq<Unit> {
    if texts == [] then []
    else UnitsOf(texts[..|texts| - 1]) + Units(Decode(texts[|texts| - 1]))
  }

  /** The UTF-16 form of all text emitted so far. */
  function History(chunks: seq<Text>): seq<Unit> {
    UnitsOf(Emitted(chunks))
  }

  // ---------------------------------------------------------------------------
  // The critical sections
  // ---------------------------------------------------------------------------

  /** A full queue is not waited for: its subscriber is cut off. */
  function Offer(l: Link, text: Text): Link {
    if |l.queue| < SUB_BUFFER then l.(queue := l.queue + [text]) else l.(closed := true)
  }

  function Fanout(links: map<nat, Link>, subs: set<nat>, text: Text): map<nat, Link> {
    map k | k in links :: if k in subs then Offer(links[k], text) else links[k]
  }

  function Kept(links: map<nat, Link>, subs: set<nat>): set<nat> {
    set k | k in subs && k in links && |links[k].queue| < SUB_BUFFER
  }

  /** The trimmed buffer and how far it was trimmed. */
  function Trim(buffer: seq<Unit>): (seq<Unit>, nat) {
    if |buffer| > BUFFER_LIMIT then (buffer[|buffer| - BUFFER_LIMIT..], |buffer| - BUFFER_LIMIT)
    else (buffer, 0)
  }

  function OnData(s: State, raw: Text): State {
    var split := SplitValid(s.partial + raw);
    var t := s.(partial := split.rest, chunks := s.chunks + [raw]);
    if split.text == [] then t
    else
      var units := Units(Decode(split.text));
      var (buffer, excess) := Trim(s.buffer + units);
      t.(cursor := s.cursor + |units|,
         links := Fanout(s.links, s.subs, split.text), subs := Kept(s.links, s.subs),
         buffer := buffer, bufCur := s.bufCur + excess)
  }

  /** The units replayed to a subscriber that asks for `asked`. */
  function Replay(s: State, asked: int): seq<Unit> {
    var from := if asked == -1 then s.cursor else if asked >= 0 then asked else 0;
    if s.buffer != [] && from < s.cursor then
      var offset := if from - s.bufCur < 0 then 0 else from - s.bufCur;
      if offset < |s.buffer| then s.buffer[offset..] else []
    else []
  }

  function Connect(s: State, asked: int): State {
    var l := Link(asked, s.bufCur, s.cursor, Replay(s, asked), [], [], false);
    s.(links := s.links[s.nextSub := l], subs := s.subs + {s.nextSub}, nextSub := s.nextSub + 1)
  }

  function Close(s: State, key: nat): State {
    if key in s.subs && key in s.links then
      s.(subs := s.subs - {key}, links := s.links[key := s.links[key].(closed := true)])
    else s
  }

  function OnExit(s: State): State {
    if s.exited then s
    else s.(exited := true, subs := {},
            links := map k | k in s.links :: if k in s.subs then s.links[k].(closed := true) else s.links[k])
  }

  /** The client takes the next frame off its channel. */
  function Take(s: State, key: nat): State {
    if key in s.links && s.links[key].queue != [] then
      var l := s.links[key];
      s.(links := s.links[key := l.(taken := l.taken + [l.queue[0]], queue := l.queue[1..])])
    else s
  }

  // ---------------------------------------------------------------------------
  // Runs
  // ---------------------------------------------------------------------------

  datatype Action =
    | Read(raw: Text)
    | Attach(asked: int)
    | Detach(key: nat)
    | Exit
    | Receive(key: nat)

  function Step(s: State, a: Action): State {
    match a
    // The read loop stops when the session exits.
    case Read(raw) => if s.exited then s else OnData(s, raw)
    case Attach(asked) => Connect(s, asked)
    case Detach(key) => Close(s, key)
    case Exit => OnExit(s)
    case Receive(key) => Take(s, key)
  }

  const START := State([], 0, 0, [], {}, 0, false, map[], [])

  function RunFrom(s: State, actions: seq<Action>): State {
    if actions == [] then s
    else Step(RunFrom(s, actions[..|actions| - 1]), actions[|actions| - 1])
  }

  /** The state after any interleaving of reads, connects, closes, takes and the exit. */
  function Run(actions: seq<Action>): State {
    RunFrom(START, actions)
  }

  // ---------------------------------------------------------------------------
  // The invariant
  // ---------------------------------------------------------------------------

  /** Cursor and buffer are a window on the history `h`: its last units, up to the limit. */
  predicate WindowOn(buffer: seq<Unit>, bufCur: nat, cursor: nat, h: seq<Unit>) {
    && cursor == |h|
    && bufCur == (if |h| > BUFFER_LIMIT then |h| - BUFFER_LIMIT else 0)
    && buffer == h[bufCur..]
  }

  predicate Window(s: State) {
    && s.partial == Held(s.chunks)
    && WindowOn(s.buffer, s.bufCur, s.cursor, History(s.chunks))
  }

  /** Where a subscriber that asks for `asked` starts: the offset, kept inside the window. */
  function StartOf(asked: int, oldest: nat, end: nat): int {
    if asked == -1 || asked >= end then end else if asked < oldest then oldest else asked
  }

  /** The subscriber was given one contiguous slice of the history, ending now if it is still subscribed. */
  predicate Contiguous(l: Link, h: seq<Unit>) {
    && l.oldest <= l.end
    && l.Base() == StartOf(l.asked, l.oldest, l.end)
    && l.Base() + |l.Stream()| <= |h|
    && l.Stream() == h[l.Base()..l.Base() + |l.Stream()|]
  }

  predicate Linked(s: State) {
    && s.subs <= s.links.Keys
    && forall k | k in s.links ::
         && k < s.nextSub
         && (s.links[k].closed <==> k !in s.subs)
         && |s.links[k].queue| <= SUB_BUFFER
  }

  ghost predicate Slices(s: State) {
    forall k | k in s.links ::
      && Contiguous(s.links[k], History(s.chunks))
      && (k in s.subs ==> s.links[k].Base() + |s.links[k].Stream()| == |History(s.chunks)|)
  }

  ghost predicate Inv(s: State) {
    Window(s) && Linked(s) && Slices(s)
  }

  lemma HistoryGrows(chunks: seq<Text>, raw: Text)
    ensures Held(chunks + [raw]) == SplitValid(Held(chunks) + raw).rest
    ensures History(chunks + [raw]) == History(chunks) + Units(Decode(SplitValid(Held(chunks) + raw).text))
  {
    hide SplitValid, Units, Decode;
    var all := chunks + [raw];
    assert all[..|all| - 1] == chunks;
    assert Emitted(all)[..|all| - 1] == Emitted(chunks);
  }

  lemma NothingToEmit()
    ensures Units(Decode([])) == []
  {
  }

  /** The units a read adds to the history. */
  function NewUnits(s: State, raw: Text): seq<Unit> {
    Units(Decode(SplitValid(s.partial + raw).text))
  }

  lemma TrimKeepsWindow(buffer: seq<Unit>, bufCur: nat, cursor: nat, h: seq<Unit>, units: seq<Unit>)
    requires WindowOn(buffer, bufCur, cursor, h)
    ensures var (trimmed, excess) := Trim(buffer + units);
            WindowOn(trimmed, bufCur + excess, cursor + |units|, h + units)
  {
  }

  lemma OnDataKeepsWindow(s: State, raw: Text)
    requires Window(s)
    ensures Window(OnData(s, raw))
    ensures History(OnData(s, raw).chunks) == History(s.chunks) + NewUnits(s, raw)
  {
    hide Decode, Units, History, SplitValid, Held, Trim, Fanout, Kept, WindowOn;
    HistoryGrows(s.chunks, raw);
    NothingToEmit();
    assert History(s.chunks) + [] == History(s.chunks);
    TrimKeepsWindow(s.buffer, s.bufCur, s.cursor, History(s.chunks), NewUnits(s, raw));
  }

  lemma UnitsOfMore(texts: seq<Text>, text: Text)
    ensures UnitsOf(texts + [text]) == UnitsOf(texts) + Units(Decode(text))
  {
    assert (texts + [text])[..|texts|] == texts;
  }

  /** A frame that reaches a live subscriber extends its slice to the new end. */
  lemma OfferKeepsContiguous(l: Link, h: seq<Unit>, text: Text)
    requires Contiguous(l, h) && l.Base() + |l.Stream()| == |h|
    ensures var g := h + Units(Decode(text));
            var m := Offer(l, text);
            && Contiguous(m, g)
            && (|l.queue| < SUB_BUFFER ==> m.Base() + |m.Stream()| == |g|)
            && (|l.queue| >= SUB_BUFFER ==> m.Stream() == l.Stream())
  {
    hide Decode, Units;
    var g, m := h + Units(Decode(text)), Offer(l, text);
    if |l.queue| < SUB_BUFFER {
      assert m.Live() == l.Live() + [text];
      UnitsOfMore(l.Live(), text);
      assert m.Stream() == l.Stream() + Units(Decode(text));
    }
    assert m.Stream() == g[m.Base()..m.Base() + |m.Stream()|];
  }

  lemma HistoryPrefix(l: Link, h: seq<Unit>, more: seq<Unit>)
    requires Contiguous(l, h)
    ensures Contiguous(l, h + more)
  {
    assert l.Stream() == (h + more)[l.Base()..l.Base() + |l.Stream()|];
  }

  lemma OnDataKeepsSlices(s: State, raw: Text)
    requires Inv(s)
    ensures Slices(OnData(s, raw))
  {
    hide Decode, Units, History, UnitsOf, SplitValid, Held, Trim, Contiguous, WindowOn, Link.Stream;
    var t, text := OnData(s, raw), SplitValid(s.partial + raw).text;
    var h, more := History(s.chunks), NewUnits(s, raw);
    OnDataKeepsWindow(s, raw);
    NothingToEmit();
    forall k | k in t.links
      ensures Contiguous(t.links[k], h + more)
      ensures k in t.subs ==> t.links[k].Base() + |t.links[k].Stream()| == |h + more|
    {
      if k in s.subs && text != [] {
        OfferKeepsContiguous(s.links[k], h, text);
      } else {
        HistoryPrefix(s.links[k], h, more);
      }
    }
  }

  lemma OnDataKeepsLinked(s: State, raw: Text)
    requires Linked(s)
    ensures Linked(OnData(s, raw))
  {
    hide Decode, Units, SplitValid, Trim;
  }

  lemma ConnectKeepsInv(s: State, asked: int)
    requires Inv(s)
    ensures Inv(Connect(s, asked))
  {
    NewLinkContiguous(s, asked);
    hide History, Held, Replay, Contiguous, Link.Stream, UnitsOf, WindowOn;
    var t := Connect(s, asked);
    assert Window(t) by {
      hide Linked, Slices;
    }
    assert Linked(t) by {
      hide Window, Slices;
    }
    hide Window, Linked;
    forall k | k in t.links
      ensures Contiguous(t.links[k], History(t.chunks))
      ensures k in t.subs ==> t.links[k].Base() + |t.links[k].Stream()| == |History(t.chunks)|
    {
      if k != s.nextSub {
        assert t.links[k] == s.links[k];
      }
    }
  }

  lemma NewLinkContiguous(s: State, asked: int)
    requires Window(s)
    ensures var l, h := Connect(s, asked).links[s.nextSub], History(s.chunks);
            Contiguous(l, h) && l.Base() + |l.Stream()| == |h| && l.queue == [] && !l.closed
  {
    hide History, Held;
    var l := Connect(s, asked).links[s.nextSub];
    assert l.Live() == [] && l.Stream() == l.replay;
  }

  /** Moving frames out of a queue and closing channels change no subscriber's slice. */
  lemma SameSlices(s: State, t: State)
    requires Inv(s)
    requires t.links.Keys == s.links.Keys && t.subs <= s.subs && t.chunks == s.chunks
    requires forall k | k in t.links ::
               && t.links[k].Live() == s.links[k].Live()
               && t.links[k].replay == s.links[k].replay && t.links[k].end == s.links[k].end
               && t.links[k].asked == s.links[k].asked && t.links[k].oldest == s.links[k].oldest
    ensures Slices(t)
  {
    hide History, Held, UnitsOf;
    forall k | k in t.links
      ensures t.links[k].Stream() == s.links[k].Stream()
      ensures Contiguous(t.links[k], History(t.chunks))
    {
    }
  }

  lemma TakeKeepsInv(s: State, key: nat)
    requires Inv(s)
    ensures Inv(Take(s, key))
  {
    hide History, Held, Contiguous, Slices;
    var t := Take(s, key);
    assert forall k | k in t.links :: t.links[k].Live() == s.links[k].Live();
    SameSlices(s, t);
  }

  lemma CloseKeepsInv(s: State, key: nat)
    requires Inv(s)
    ensures Inv(Close(s, key))
  {
    hide History, Held, Contiguous, Slices;
    SameSlices(s, Close(s, key));
  }

  lemma OnExitKeepsInv(s: State)
    requires Inv(s)
    ensures Inv(OnExit(s))
  {
    hide History, Held, Contiguous, Slices;
    SameSlices(s, OnExit(s));
  }

  lemma StepKeepsInv(s: State, a: Action)
    requires Inv(s)
    ensures Inv(Step(s, a))
  {
    hide Window, Linked, Slices, OnData, Connect, Take, Close, OnExit;
    match a
    case Read(raw) =>
      OnDataKeepsWindow(s, raw);
      OnDataKeepsLinked(s, raw);
      OnDataKeepsSlices(s, raw);
    case Attach(asked) => ConnectKeepsInv(s, asked);
    case Detach(key) => CloseKeepsInv(s, key);
    case Exit => OnExitKeepsInv(s);
    case Receive(key) => TakeKeepsInv(s, key);
  }

  lemma {:induction false} RunKeepsInv(actions: seq<Action>)
    ensures Inv(Run(actions))
  {
    hide Inv, Step;
    if actions == [] {
      StartInv();
    } else {
      RunKeepsInv(actions[..|actions| - 1]);
      StepKeepsInv(Run(actions[..|actions| - 1]), actions[|actions| - 1]);
    }
  }

  lemma StartInv()
    ensures Inv(START)
  {
    assert Emitted([]) == [];
  }
}
