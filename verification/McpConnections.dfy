/**
 The connections of the MCP manager as a step system: the initial connect that runs once,
 any number of reconnects, disconnects, tool refreshes and the close. One step is one
 critical section or one operation on a connection.
 */
module McpConnections {

  type Name = string // a server
  type Conn = nat    // a connection that finished dialing
  type Tid = nat     // a call of connectOne

  datatype Status = Connected | Disabled | Failed

  datatype DialResult = NotEnabled | DialFailed | Dialed

  /** The initial connect: its results stay local until they are published. */
  datatype Once =
    | NotStarted
    | Connecting(todo: set<Name>, dialed: map<Name, Conn>, marks: map<Name, Status>)
    | Dropping(dialed: map<Name, Conn>)      // closed meanwhile: its connections are being closed
    | Ready

  datatype Thread =
    | Disabling(name: Name)
    | Dialing(name: Name)
    | Holding(name: Name, c: Conn)
    | Failing(name: Name)
    | Discarding(c: Conn)                   // closed meanwhile: its connection is to be closed
    | Done

  /** Where a connection is. Kept as history; the invariant ties it to the real fields. */
  datatype Owner = ByOnce(name: Name) | ByThread(t: Tid) | Cached(name: Name) | HandedOver | Shut

  /**
   The fields of the manager, except that `tools` records which connection the cached list
   came from, and `made` that the maps exist. `closing` is what Close has taken and not
   closed yet; `panicked` that a write met a map that does not exist. `known` are the servers
   that are configured or were added; they matter only once the initial connect is over.
   */
  datatype State = State(
    closed: bool, made: bool, status: map<Name, Status>, clients: map<Name, Conn>,
    tools: map<Name, Conn>, resources: map<Name, Conn>,
    once: Once, threads: map<Tid, Thread>, closing: set<Conn>, panicked: bool, known: set<Name>,
    conns: map<Conn, Owner>, nextConn: Conn)

  datatype Action =
    | OnceBegins(servers: set<Name>)
    | OnceDials(name: Name, result: DialResult)
    | OncePublishes
    | OnceDrops(name: Name)
    | OnceReturns
    | Register(name: Name)
    | Reconnect(t: Tid, name: Name, enabled: bool)
    | DialOne(t: Tid, ok: bool)
    | Commit(t: Tid)
    | Discard(t: Tid)
    | Disconnect(name: Name)
    | Refresh(name: Name, c: Conn)
    | Close
    | CloseOne(c: Conn)

  predicate At(s: State, t: Tid, c: Thread) {
    t in s.threads && s.threads[t] == c
  }

  /** Every operation first waits for the initial connect to be over. */
  predicate Enabled(s: State, a: Action) {
    match a
    case OnceBegins(servers) => s.once.NotStarted?
    case OnceDials(name, result) => s.once.Connecting? && name in s.once.todo
    case OncePublishes => s.once.Connecting? && s.once.todo == {}
    case OnceDrops(name) => s.once.Dropping? && name in s.once.dialed && s.once.dialed[name] in s.conns
    case OnceReturns => s.once == Dropping(map[])
    case Register(name) => s.once.Ready?
    case Reconnect(t, name, enabled) => s.once.Ready? && t !in s.threads && name in s.known
    case DialOne(t, ok) => t in s.threads && s.threads[t].Dialing?
    case Commit(t) => t in s.threads && (s.threads[t].Disabling? || s.threads[t].Failing? || s.threads[t].Holding?)
    case Discard(t) => t in s.threads && s.threads[t].Discarding?
    case Disconnect(name) => s.once.Ready?
    case Refresh(name, c) => c in s.conns
    case Close => true
    case CloseOne(c) => c in s.closing
  }

  /** A closed manager stays closed, and whether its maps exist does not change any more. */
  predicate KeepsClosed(s: State, t: State) {
    s.closed ==> t.closed && t.made == s.made
  }

  /** The maps survive, and before the initial connect is over only Close closes and only what ends it makes them. */
  predicate KeepsMade(s: State, t: State) {
    && (s.once.Ready? && s.made ==> t.once.Ready? && t.made)
    && (!s.once.Ready? && !s.closed ==> if t.once.Ready? then t.made else !t.closed)
  }

  function OnceDialsStep(s: State, name: Name, result: DialResult): (next: State)
    requires Enabled(s, OnceDials(name, result))
    ensures KeepsClosed(s, next)
    ensures KeepsMade(s, next)
  {
    var Connecting(todo, dialed, marks) := s.once;
    match result
    case NotEnabled => s.(once := Connecting(todo - {name}, dialed, marks[name := Disabled]))
    case DialFailed => s.(once := Connecting(todo - {name}, dialed, marks[name := Failed]))
    case Dialed =>
      s.(once := Connecting(todo - {name}, dialed[name := s.nextConn], marks[name := Connected]),
         conns := s.conns[s.nextConn := ByOnce(name)], nextConn := s.nextConn + 1)
  }

  function OncePublishesStep(s: State): (next: State)
    requires Enabled(s, OncePublishes)
    ensures KeepsClosed(s, next)
    ensures KeepsMade(s, next)
  {
    var dialed := s.once.dialed;
    if s.closed then s.(once := Dropping(dialed))
    else s.(once := Ready, made := true,
            status := s.once.marks, clients := dialed, tools := dialed, resources := dialed,
            conns := map c | c in s.conns ::
                       if s.conns[c].ByOnce? then Cached(s.conns[c].name) else s.conns[c])
  }

  /** Closes and forgets what is cached for `name`. */
  function CloseLocked(s: State, name: Name): (next: State)
    ensures next.once == s.once && next.closed == s.closed && next.made == s.made
  {
    var t := s.(tools := s.tools - {name}, resources := s.resources - {name});
    if name in s.clients then Forget(t, name) else t
  }

  function Forget(s: State, name: Name): State
    requires name in s.clients
  {
    s.(clients := s.clients - {name}, conns := s.conns[s.clients[name] := Shut])
  }

  /** Replaces what is cached for `name` by a status. */
  function Mark(s: State, name: Name, st: Status): State {
    if s.closed then s
    else var t := CloseLocked(s, name); t.(made := true, status := t.status[name := st])
  }

  function Install(s: State, t: Tid, name: Name, c: Conn): State {
    s.(threads := s.threads[t := Done], clients := s.clients[name := c], tools := s.tools[name := c],
       resources := s.resources[name := c], conns := s.conns[c := Cached(name)])
  }

  function CommitStep(s: State, t: Tid): (next: State)
    requires Enabled(s, Commit(t))
    ensures KeepsClosed(s, next)
  {
    match s.threads[t]
    case Disabling(name) => Mark(s, name, Disabled).(threads := s.threads[t := Done])
    case Failing(name) => Mark(s, name, Failed).(threads := s.threads[t := Done])
    case Holding(name, c) =>
      if s.closed then s.(threads := s.threads[t := Discarding(c)])
      else Install(Mark(s, name, Connected), t, name, c)
  }

  /** An unknown server is refused before anything is written. */
  function DisconnectStep(s: State, name: Name): (next: State)
    ensures KeepsClosed(s, next)
    ensures KeepsMade(s, next)
  {
    if name !in s.known then s
    else
      var t := CloseLocked(s, name);
      if s.made then t.(status := t.status[name := Disabled]) else t.(panicked := true)
  }

  function CloseStep(s: State): (next: State)
    ensures KeepsClosed(s, next)
  {
    s.(closed := true, clients := map[], closing := s.closing + s.clients.Values,
       conns := map c | c in s.conns :: if s.conns[c].Cached? then HandedOver else s.conns[c])
  }

  function OnceBeginsStep(s: State, servers: set<Name>): (next: State)
    requires s.once.NotStarted?
    ensures KeepsClosed(s, next)
    ensures KeepsMade(s, next)
  {
    s.(once := if s.closed then Ready else Connecting(servers, map[], map[]), known := servers)
  }

  function OnceDropsStep(s: State, name: Name): (next: State)
    requires Enabled(s, OnceDrops(name))
    ensures KeepsClosed(s, next)
    ensures KeepsMade(s, next)
  {
    s.(once := Dropping(s.once.dialed - {name}), conns := s.conns[s.once.dialed[name] := Shut])
  }

  function RegisterStep(s: State, name: Name): (next: State)
    ensures KeepsClosed(s, next)
    ensures KeepsMade(s, next)
  {
    s.(known := s.known + {name})
  }

  function ReconnectStep(s: State, t: Tid, name: Name, enabled: bool): (next: State)
    ensures KeepsClosed(s, next)
    ensures KeepsMade(s, next)
  {
    s.(threads := s.threads[t := if s.closed then Done else if enabled then Dialing(name) else Disabling(name)])
  }

  function DialOneStep(s: State, t: Tid, ok: bool): (next: State)
    requires Enabled(s, DialOne(t, ok))
    ensures KeepsClosed(s, next)
    ensures KeepsMade(s, next)
  {
    var name := s.threads[t].name;
    if ok then
      s.(threads := s.threads[t := Holding(name, s.nextConn)],
         conns := s.conns[s.nextConn := ByThread(t)], nextConn := s.nextConn + 1)
    else s.(threads := s.threads[t := Failing(name)])
  }

  function DiscardStep(s: State, t: Tid): (next: State)
    requires Enabled(s, Discard(t))
    ensures KeepsClosed(s, next)
    ensures KeepsMade(s, next)
  {
    s.(threads := s.threads[t := Done], conns := s.conns[s.threads[t].c := Shut])
  }

  /** The list is refreshed only for the connection that is still the cached one. */
  function RefreshStep(s: State, name: Name, c: Conn): (next: State)
    ensures KeepsClosed(s, next)
    ensures KeepsMade(s, next)
  {
    if s.closed || name !in s.clients || s.clients[name] != c then s else s.(tools := s.tools[name := c])
  }

  function CloseOneStep(s: State, c: Conn): (next: State)
    ensures KeepsClosed(s, next)
    ensures KeepsMade(s, next)
  {
    s.(closing := s.closing - {c}, conns := s.conns[c := Shut])
  }

  function Apply(s: State, a: Action): State
    requires Enabled(s, a)
  {
    match a
    case OnceBegins(servers) => OnceBeginsStep(s, servers)
    case OnceDials(name, result) => OnceDialsStep(s, name, result)
    case OncePublishes => OncePublishesStep(s)
    case OnceDrops(name) => OnceDropsStep(s, name)
    case OnceReturns => s.(once := Ready)
    case Register(name) => RegisterStep(s, name)
    case Reconnect(t, name, enabled) => ReconnectStep(s, t, name, enabled)
    case DialOne(t, ok) => DialOneStep(s, t, ok)
    case Commit(t) => CommitStep(s, t)
    case Discard(t) => DiscardStep(s, t)
    case Disconnect(name) => DisconnectStep(s, name)
    case Refresh(name, c) => RefreshStep(s, name, c)
    case Close => CloseStep(s)
    case CloseOne(c) => CloseOneStep(s, c)
  }

  function Step(s: State, a: Action): State {
    if Enabled(s, a) then Apply(s, a) else s
  }

  const START :=
    State(false, false, map[], map[], map[], map[], NotStarted, map[], {}, false, {}, map[], 0)

  function RunFrom(s: State, actions: seq<Action>): State {
    if actions == [] then s
    else Step(RunFrom(s, actions[..|actions| - 1]), actions[|actions| - 1])
  }

  function Run(actions: seq<Action>): State {
    RunFrom(START, actions)
  }

  // ---------------------------------------------------------------------------
  // The invariant
  // ---------------------------------------------------------------------------

  /** The initial connect still holds connections. */
  predicate UnderWay(o: Once) {
    o.Connecting? || o.Dropping?
  }

  predicate HasConn(c: Thread) {
    c.Holding? || c.Discarding?
  }

  /** The caches agree, and each list came from the cached connection. */
  predicate Coherent(s: State) {
    && (!s.closed ==>
          && s.tools == s.clients && s.resources == s.clients
          && (forall n | n in s.clients :: n in s.status && s.status[n] == Connected)
          && (forall n | n in s.status && s.status[n] == Connected :: n in s.clients))
    && (s.closed ==> s.clients == map[])
    && (s.once.Connecting? ==>
          && (forall n | n in s.once.dialed :: n in s.once.marks && s.once.marks[n] == Connected)
          && (forall n | n in s.once.marks && s.once.marks[n] == Connected :: n in s.once.dialed)
          && s.once.dialed.Keys !! s.once.todo)
  }

  /** The maps exist once the initial connect is over, unless the manager was closed before that. */
  predicate MadeUnlessClosed(s: State) {
    && (!s.once.Ready? ==> s.threads == map[] && s.clients == map[] && !s.made)
    && (s.once.Ready? ==> s.made || s.closed)
    && (s.once.Dropping? ==> s.closed)
    && (s.panicked ==> s.closed && !s.made)
  }

  /** Whatever holds a connection is what its history says. */
  predicate Held(s: State) {
    && (UnderWay(s.once) ==>
          forall n | n in s.once.dialed :: s.once.dialed[n] in s.conns && s.conns[s.once.dialed[n]] == ByOnce(n))
    && (forall t | t in s.threads && HasConn(s.threads[t]) ::
          s.threads[t].c in s.conns && s.conns[s.threads[t].c] == ByThread(t))
    && (forall n | n in s.clients :: s.clients[n] in s.conns && s.conns[s.clients[n]] == Cached(n))
    && (forall c | c in s.closing :: c in s.conns && s.conns[c] == HandedOver)
  }

  /** A connection is where its history says. */
  predicate IsAt(s: State, c: Conn, o: Owner) {
    match o
    case ByOnce(n) => UnderWay(s.once) && n in s.once.dialed && s.once.dialed[n] == c
    case ByThread(t) => t in s.threads && HasConn(s.threads[t]) && s.threads[t].c == c
    case Cached(n) => n in s.clients && s.clients[n] == c
    case HandedOver => c in s.closing
    case Shut => true
  }

  predicate Traced(s: State) {
    forall c | c in s.conns :: c < s.nextConn && IsAt(s, c, s.conns[c])
  }

  predicate Owned(s: State) {
    Held(s) && Traced(s)
  }

  predicate Inv(s: State) {
    Coherent(s) && MadeUnlessClosed(s) && Owned(s)
  }

  lemma OnceBeginsKeepsInv(s: State, servers: set<Name>)
    requires Inv(s) && Enabled(s, OnceBegins(servers))
    ensures Inv(OnceBeginsStep(s, servers))
  {
  }

  lemma OnceDialedOwned(s: State, name: Name)
    requires Owned(s) && Enabled(s, OnceDials(name, Dialed)) && name !in s.once.dialed
    ensures Owned(OnceDialsStep(s, name, Dialed))
  {
  }

  lemma OnceDialsOwned(s: State, name: Name, result: DialResult)
    requires Owned(s) && Enabled(s, OnceDials(name, result)) && name !in s.once.dialed
    ensures Owned(OnceDialsStep(s, name, result))
  {
    if result.Dialed? {
      OnceDialedOwned(s, name);
    }
  }

  lemma OnceDialsKeepsInv(s: State, name: Name, result: DialResult)
    requires Inv(s) && Enabled(s, OnceDials(name, result))
    ensures Inv(OnceDialsStep(s, name, result))
  {
    hide Owned;
    OnceDialsOwned(s, name, result);
  }

  lemma OncePublishesKeepsInv(s: State)
    requires Inv(s) && Enabled(s, OncePublishes)
    ensures Inv(OncePublishesStep(s))
  {
  }

  lemma OnceDropsKeepsInv(s: State, name: Name)
    requires Inv(s) && Enabled(s, OnceDrops(name))
    ensures Inv(OnceDropsStep(s, name))
  {
  }

  lemma RegisterKeepsInv(s: State, name: Name)
    requires Inv(s)
    ensures Inv(RegisterStep(s, name))
  {
  }

  lemma ReconnectKeepsInv(s: State, t: Tid, name: Name, enabled: bool)
    requires Inv(s) && Enabled(s, Reconnect(t, name, enabled))
    ensures Inv(ReconnectStep(s, t, name, enabled))
  {
  }

  lemma DialOneKeepsInv(s: State, t: Tid, ok: bool)
    requires Inv(s) && Enabled(s, DialOne(t, ok))
    ensures Inv(DialOneStep(s, t, ok))
  {
  }

  lemma DoneOwned(s: State, t: Tid)
    requires Owned(s) && t in s.threads && !HasConn(s.threads[t])
    ensures Owned(s.(threads := s.threads[t := Done]))
  {
  }

  lemma MarkKeepsInv(s: State, t: Tid, name: Name, st: Status)
    requires Inv(s) && s.once.Ready? && t in s.threads && !HasConn(s.threads[t]) && st != Connected
    ensures Inv(Mark(s, name, st).(threads := s.threads[t := Done]))
  {
    hide Owned;
    if !s.closed {
      CloseLockedOwned(s, name);
      MarkOwned(s, name, st);
    }
    DoneOwned(Mark(s, name, st), t);
  }

  lemma HoldingCommitCoherent(s: State, t: Tid)
    requires Inv(s) && Enabled(s, Commit(t)) && s.threads[t].Holding? && !s.closed
    ensures Coherent(CommitStep(s, t)) && MadeUnlessClosed(CommitStep(s, t))
  {
    hide Owned;
  }

  lemma ForgetOwned(s: State, name: Name)
    requires Owned(s) && name in s.clients
    ensures Owned(Forget(s, name))
  {
  }

  lemma CloseLockedOwned(s: State, name: Name)
    requires Owned(s)
    ensures Owned(CloseLocked(s, name))
  {
    hide Forget;
    var t := s.(tools := s.tools - {name}, resources := s.resources - {name});
    assert Owned(t);
    hide Held, Traced;
    if name in s.clients {
      ForgetOwned(t, name);
    }
  }

  lemma MarkOwned(s: State, name: Name, st: Status)
    requires Owned(CloseLocked(s, name)) && !s.closed
    ensures Owned(Mark(s, name, st))
  {
    hide CloseLocked;
  }

  lemma InstallOwned(s: State, t: Tid, name: Name, c: Conn)
    requires Owned(s) && At(s, t, Holding(name, c)) && name !in s.clients
    ensures Owned(Install(s, t, name, c))
  {
  }

  lemma HoldingCommitOwned(s: State, t: Tid)
    requires Owned(s) && Enabled(s, Commit(t)) && s.threads[t].Holding? && !s.closed
    ensures Owned(CommitStep(s, t))
  {
    var Holding(name, c) := s.threads[t];
    hide Owned, Install;
    CloseLockedOwned(s, name);
    MarkOwned(s, name, Connected);
    InstallOwned(Mark(s, name, Connected), t, name, c);
  }

  lemma LateCommitKeepsInv(s: State, t: Tid)
    requires Inv(s) && Enabled(s, Commit(t)) && s.threads[t].Holding? && s.closed
    ensures Inv(CommitStep(s, t))
  {
  }

  lemma CommitKeepsInv(s: State, t: Tid)
    requires Inv(s) && Enabled(s, Commit(t))
    ensures Inv(CommitStep(s, t))
  {
    assert s.once.Ready?;
    hide Coherent, MadeUnlessClosed, Owned, Mark;
    match s.threads[t]
    case Disabling(name) => MarkKeepsInv(s, t, name, Disabled);
    case Failing(name) => MarkKeepsInv(s, t, name, Failed);
    case Holding(name, c) =>
      if s.closed {
        LateCommitKeepsInv(s, t);
      } else {
        HoldingCommitCoherent(s, t);
        HoldingCommitOwned(s, t);
      }
  }

  lemma DiscardKeepsInv(s: State, t: Tid)
    requires Inv(s) && Enabled(s, Discard(t))
    ensures Inv(DiscardStep(s, t))
  {
  }

  lemma DisconnectKeepsInv(s: State, name: Name)
    requires Inv(s) && Enabled(s, Disconnect(name))
    ensures Inv(DisconnectStep(s, name))
  {
    CloseLockedOwned(s, name);
  }

  lemma RefreshKeepsInv(s: State, name: Name, c: Conn)
    requires Inv(s) && Enabled(s, Refresh(name, c))
    ensures Inv(RefreshStep(s, name, c))
  {
  }

  lemma CloseKeepsInv(s: State)
    requires Inv(s) && Enabled(s, Close)
    ensures Inv(CloseStep(s))
  {
  }

  lemma CloseOneKeepsInv(s: State, c: Conn)
    requires Inv(s) && Enabled(s, CloseOne(c))
    ensures Inv(CloseOneStep(s, c))
  {
  }

  lemma OnceReturnsKeepsInv(s: State)
    requires Inv(s) && Enabled(s, OnceReturns)
    ensures Inv(s.(once := Ready))
  {
  }

  lemma StepKeepsInv(s: State, a: Action)
    requires Inv(s)
    ensures Inv(Step(s, a))
  {
    hide Inv, OnceBeginsStep, OnceDialsStep, OncePublishesStep, OnceDropsStep, RegisterStep, ReconnectStep, DialOneStep;
    hide CommitStep, DiscardStep, DisconnectStep, RefreshStep, CloseStep, CloseOneStep;
    if Enabled(s, a) {
      match a
      case OnceBegins(servers) => OnceBeginsKeepsInv(s, servers);
      case OnceDials(name, result) => OnceDialsKeepsInv(s, name, result);
      case OncePublishes => OncePublishesKeepsInv(s);
      case OnceDrops(name) => OnceDropsKeepsInv(s, name);
      case OnceReturns => OnceReturnsKeepsInv(s);
      case Register(name) => RegisterKeepsInv(s, name);
      case Reconnect(t, name, enabled) => ReconnectKeepsInv(s, t, name, enabled);
      case DialOne(t, ok) => DialOneKeepsInv(s, t, ok);
      case Commit(t) => CommitKeepsInv(s, t);
      case Discard(t) => DiscardKeepsInv(s, t);
      case Disconnect(name) => DisconnectKeepsInv(s, name);
      case Refresh(name, c) => RefreshKeepsInv(s, name, c);
      case Close => CloseKeepsInv(s);
      case CloseOne(c) => CloseOneKeepsInv(s, c);
    }
  }

  lemma {:induction false} RunKeepsInv(actions: seq<Action>)
    ensures Inv(Run(actions))
  {
    hide Inv, Step;
    if actions == [] {
      StartInv();
    } else {
      RunKeepsInv(actions[..|actions| - 1]);
      StepKeepsInv(Run(actions[..|actions| - 1]), actions[|actions| - 1]);
    }
  }

  lemma StartInv()
    ensures Inv(START)
  {
  }

  lemma {:induction false} RunInParts(first: seq<Action>, second: seq<Action>)
    ensures Run(first + second) == RunFrom(Run(first), second)
  {
    hide Step;
    if second == [] {
      assert first + second == first;
    } else {
      var all := first + second;
      assert all[..|all| - 1] == first + second[..|second| - 1];
      RunInParts(first, second[..|second| - 1]);
    }
  }

  // ---------------------------------------------------------------------------
  // Connections
  // ---------------------------------------------------------------------------

  function One(b: bool): nat {
    if b then 1 else 0
  }

  predicate HeldByOnce(s: State, c: Conn) {
    UnderWay(s.once) && c in s.once.dialed.Values
  }

  ghost predicate HeldByCall(s: State, c: Conn) {
    exists t :: t in s.threads && HasConn(s.threads[t]) && s.threads[t].c == c
  }

  predicate IsShut(s: State, c: Conn) {
    c in s.conns && s.conns[c] == Shut
  }

  /**
   Every connection is in exactly one place: with the call that dialed it, in the cache, handed
   over for closing, or closed.
   */
  lemma ExactlyOneHolder(actions: seq<Action>, c: Conn)
    requires c in Run(actions).conns
    ensures var s := Run(actions);
            && One(HeldByOnce(s, c)) + One(HeldByCall(s, c)) + One(c in s.clients.Values)
               + One(c in s.closing) + One(IsShut(s, c)) == 1
            && (forall m, n | m in s.clients && n in s.clients && s.clients[m] == c == s.clients[n] :: m == n)
  {
    hide Run, Coherent, MadeUnlessClosed;
    RunKeepsInv(actions);
    var s := Run(actions);
    assert IsAt(s, c, s.conns[c]);
    match s.conns[c]
    case ByOnce(n) => assert s.once.dialed[n] == c;
    case ByThread(t) => assert t in s.threads && HasConn(s.threads[t]) && s.threads[t].c == c;
    case Cached(n) => assert s.clients[n] == c;
    case HandedOver =>
    case Shut =>
  }

  /** While the manager is open, its caches agree, and the tool list of a server came from its cached connection. */
  lemma CachesAgree(actions: seq<Action>)
    requires !Run(actions).closed
    ensures var s := Run(actions);
            && s.tools.Keys == s.resources.Keys == s.clients.Keys
            && (forall n :: n in s.status && s.status[n] == Connected <==> n in s.clients)
            && (forall n | n in s.tools :: s.tools[n] == s.clients[n])
  {
    hide Run, Owned, MadeUnlessClosed;
    RunKeepsInv(actions);
  }

  lemma ClosedStaysInStep(s: State, a: Action)
    ensures KeepsClosed(s, Step(s, a))
  {
    hide OnceBeginsStep, OnceDialsStep, OncePublishesStep, OnceDropsStep, RegisterStep, ReconnectStep, DialOneStep;
    hide CommitStep, DiscardStep, DisconnectStep, RefreshStep, CloseStep, CloseOneStep;
  }

  lemma {:induction false} ClosedStays(s: State, more: seq<Action>)
    requires s.closed
    ensures RunFrom(s, more).closed && RunFrom(s, more).made == s.made
  {
    hide Step;
    if more != [] {
      ClosedStays(s, more[..|more| - 1]);
      ClosedStaysInStep(RunFrom(s, more[..|more| - 1]), more[|more| - 1]);
    }
  }

  /** Once closed, the manager caches no connection again, whoever was dialing at the time. */
  lemma NothingCachedAfterClose(actions: seq<Action>, more: seq<Action>)
    requires Run(actions).closed
    ensures Run(actions + more).closed && Run(actions + more).clients == map[]
  {
    hide Run, RunFrom, Step, Owned, MadeUnlessClosed;
    RunInParts(actions, more);
    ClosedStays(Run(actions), more);
    RunKeepsInv(actions + more);
  }

  /**
   After the close has worked through its list, every connection is closed exactly if no dialing
   call still holds one.
   */
  lemma NothingLeaks(actions: seq<Action>)
    requires Run(actions).closed && Run(actions).closing == {}
    ensures var s := Run(actions);
            (forall c | c in s.conns :: IsShut(s, c)) <==>
            (UnderWay(s.once) ==> s.once.dialed == map[]) && forall t | t in s.threads :: !HasConn(s.threads[t])
  {
    hide Run, MadeUnlessClosed;
    RunKeepsInv(actions);
    var s := Run(actions);
    assert forall c | c in s.conns :: IsAt(s, c, s.conns[c]);
    if UnderWay(s.once) && s.once.dialed != map[] {
      var n :| n in s.once.dialed;
      assert !IsShut(s, s.once.dialed[n]);
    }
    if t :| t in s.threads && HasConn(s.threads[t]) {
      assert !IsShut(s, s.threads[t].c);
    }
  }

  // ---------------------------------------------------------------------------
  // The missing map
  // ---------------------------------------------------------------------------

  /** Closing before the initial connect is over leaves the maps missing for ever. */
  lemma ClosedEarlyNeverMade(first: seq<Action>, later: seq<Action>)
    requires !Run(first).once.Ready?
    ensures !Run(first + [Close] + later).made
  {
    RunKeepsInv(first);
    var s := Run(first);
    assert !s.made by {
      hide Run, Coherent, Owned;
    }
    OneMore(first, Close);
    RunInParts(first + [Close], later);
    hide Inv, Run, RunFrom;
    assert Step(s, Close) == CloseStep(s) by {
      hide CloseStep;
    }
    ClosedStays(CloseStep(s), later);
  }

  /** The manager was closed before its initial connect was over. */
  ghost predicate ClosedEarly(actions: seq<Action>) {
    exists k: nat :: k < |actions| && actions[k] == Close && !Run(actions[..k]).once.Ready?
  }

  lemma CommitKeepsMade(s: State, t: Tid)
    requires Enabled(s, Commit(t))
    ensures KeepsMade(s, CommitStep(s, t)) && CommitStep(s, t).once == s.once
  {
    hide CloseLocked;
  }

  lemma MadeInTimeStep(s: State, a: Action)
    requires s.once.Ready? ==> s.made
    requires !s.once.Ready? ==> !s.closed && !s.once.Dropping? && !a.Close?
    ensures var t := Step(s, a);
            (t.once.Ready? ==> t.made) && (!t.once.Ready? ==> !t.closed)
  {
    hide OnceBeginsStep, OnceDialsStep, OncePublishesStep, OnceDropsStep, RegisterStep, ReconnectStep, DialOneStep;
    hide CommitStep, DiscardStep, DisconnectStep, RefreshStep, CloseOneStep;
    if a.Commit? && Enabled(s, a) {
      CommitKeepsMade(s, a.t);
    }
  }

  lemma {:induction false} MadeInTime(actions: seq<Action>)
    requires !ClosedEarly(actions)
    ensures var s := Run(actions);
            (s.once.Ready? ==> s.made) && (!s.once.Ready? ==> !s.closed)
  {
    if actions != [] {
      hide Step;
      var n := |actions| - 1;
      assert forall k | 0 <= k <= n :: actions[..n][..k] == actions[..k];
      MadeInTime(actions[..n]);
      RunKeepsInv(actions[..n]);
      assert actions[n] == Close ==> Run(actions[..n]).once.Ready?;
      hide Run, ClosedEarly, Coherent, Owned;
      MadeInTimeStep(Run(actions[..n]), actions[n]);
    }
  }

  /** Once the initial connect is over, the maps are missing exactly when the manager was closed before that. */
  lemma MapsMissingIff(actions: seq<Action>)
    requires Run(actions).once.Ready?
    ensures !Run(actions).made <==> ClosedEarly(actions)
  {
    hide Run;
    if k: nat :| k < |actions| && actions[k] == Close && !Run(actions[..k]).once.Ready? {
      assert actions == actions[..k] + [Close] + actions[k + 1..];
      ClosedEarlyNeverMade(actions[..k], actions[k + 1..]);
    }
    if !ClosedEarly(actions) {
      MadeInTime(actions);
    }
  }

  /**
   Disconnecting panics exactly when the server is known and the manager was closed before its
   initial connect was over.
   */
  lemma DisconnectPanicsIff(actions: seq<Action>, name: Name)
    requires Enabled(Run(actions), Disconnect(name)) && !Run(actions).panicked
    ensures Step(Run(actions), Disconnect(name)).panicked <==> name in Run(actions).known && ClosedEarly(actions)
  {
    MapsMissingIff(actions);
    hide Run, ClosedEarly;
    PanicNeedsMap(Run(actions), name);
  }

  lemma PanicNeedsMap(s: State, name: Name)
    ensures DisconnectStep(s, name).panicked <==> s.panicked || (name in s.known && !s.made)
  {
  }

  /** The shortest such run: a server is configured, and the manager is closed before anything asked for it. */
  lemma DisconnectAfterEarlyClose(name: Name)
    ensures var s := Run([Close, OnceBegins({name})]);
            Enabled(s, Disconnect(name)) && !s.panicked && Step(s, Disconnect(name)).panicked
  {
    var begin := OnceBegins({name});
    assert [] + [Close] == [Close] && [Close] + [begin] == [Close, begin];
    OneMore([], Close);
    OneMore([Close], begin);
    assert Run([]) == START;
    EarlyClose(name);
    hide Run, Step;
  }

  lemma EarlyClose(name: Name)
    ensures var s := Step(Step(START, Close), OnceBegins({name}));
            && s.once.Ready? && !s.made && !s.panicked && name in s.known
            && Step(s, Disconnect(name)).panicked
  {
  }

  lemma OneMore(actions: seq<Action>, a: Action)
    ensures Run(actions + [a]) == Step(Run(actions), a)
  {
    assert (actions + [a])[..|actions|] == actions;
  }

  // ---------------------------------------------------------------------------
  // Lists after the close
  // ---------------------------------------------------------------------------

  /** Every server with a cached list has a client exactly while the manager is open or caches no list. */
  lemma ListedHaveClientsIff(actions: seq<Action>)
    ensures var s := Run(actions);
            (forall n | n in s.tools :: n in s.clients) <==> !s.closed || s.tools == map[]
  {
    hide Run, Owned, MadeUnlessClosed;
    RunKeepsInv(actions);
    var s := Run(actions);
    if s.tools != map[] {
      var n :| n in s.tools;
    }
  }

  /** A connected server's list is still cached after the close, its client is not. */
  lemma ListOutlivesClient(name: Name)
    ensures var s := Run([OnceBegins({name}), OnceDials(name, Dialed), OncePublishes, Close]);
            s.closed && s.tools.Keys == {name} && s.clients == map[]
  {
    var a, b := OnceBegins({name}), OnceDials(name, Dialed);
    assert [] + [a] == [a] && [a] + [b] == [a, b];
    assert [a, b] + [OncePublishes] == [a, b, OncePublishes];
    assert [a, b, OncePublishes] + [Close] == [a, b, OncePublishes, Close];
    OneMore([], a);
    OneMore([a], b);
    OneMore([a, b], OncePublishes);
    OneMore([a, b, OncePublishes], Close);
    assert Run([]) == START;
    OneServerConnects(name);
    ClosesKeepingLists(Step(Step(Step(START, a), b), OncePublishes));
    hide Run, Step;
  }

  lemma OneServerConnects(name: Name)
    ensures Step(Step(Step(START, OnceBegins({name})), OnceDials(name, Dialed)), OncePublishes).tools == map[name := 0]
  {
    var s := Step(Step(START, OnceBegins({name})), OnceDials(name, Dialed));
    assert s.once == Connecting({}, map[name := 0], map[name := Connected]) && !s.closed;
    hide Step;
    assert Enabled(s, OncePublishes);
    assert OncePublishesStep(s).tools == map[name := 0];
    PublishesNext(s);
  }

  lemma PublishesNext(s: State)
    requires Enabled(s, OncePublishes)
    ensures Step(s, OncePublishes) == OncePublishesStep(s)
  {
    hide OncePublishesStep;
  }

  lemma ClosesKeepingLists(s: State)
    ensures var t := Step(s, Close);
            t.closed && t.tools == s.tools && t.clients == map[]
  {
  }
}
