/**
 One push notification per device and session in a minute: the rate map that forgets entries
 past their window, compared with a limiter that remembers every push it ever allowed.
 */
module PushRate {

  /** One minute, in nanoseconds. */
  const WINDOW: int := 60_000_000_000

  datatype Call = Call(key: string, now: int)

  function Key(device: string, session: string): string {
    device + "|" + session
  }

  function Evicted(rate: map<string, int>, now: int): map<string, int> {
    map k | k in rate && now - rate[k] < WINDOW :: rate[k]
  }

  predicate Allowed(rate: map<string, int>, c: Call) {
    c.key !in Evicted(rate, c.now)
  }

  function Next(rate: map<string, int>, c: Call): map<string, int> {
    if Allowed(rate, c) then Evicted(rate, c.now)[c.key := c.now] else Evicted(rate, c.now)
  }

  /** The map after `calls`, in the order they took the lock. */
  function After(calls: seq<Call>): map<string, int> {
    if calls == [] then map[] else Next(After(calls[..|calls| - 1]), calls[|calls| - 1])
  }

  /** Whether call `k` was allowed. */
  predicate Permit(calls: seq<Call>, k: nat)
    requires k < |calls|
  {
    Allowed(After(calls[..k]), calls[k])
  }

  // ---------------------------------------------------------------------------
  // What the map remembers
  // ---------------------------------------------------------------------------

  /** Call `j` is the last before `k` that was allowed for its key. */
  predicate LastPermit(calls: seq<Call>, j: nat, k: nat)
    requires k <= |calls|
  {
    && j < k && Permit(calls, j)
    && forall i: nat | j < i < k && calls[i].key == calls[j].key :: !Permit(calls, i)
  }

  /** No call from `j` to before `k` came a window after `j`. */
  predicate Remembered(calls: seq<Call>, j: nat, k: nat)
    requires j < k <= |calls|
  {
    forall i: nat | j < i < k :: calls[i].now - calls[j].now < WINDOW
  }

  predicate Live(calls: seq<Call>, j: nat, k: nat, key: string)
    requires k <= |calls|
  {
    LastPermit(calls, j, k) && calls[j].key == key && Remembered(calls, j, k)
  }

  /** The entry of `key` is the time of its last permit, as long as that is remembered. */
  ghost predicate Entry(calls: seq<Call>, k: nat, key: string)
    requires k <= |calls|
  {
    var rate := After(calls[..k]);
    && (key in rate ==> exists j: nat :: Live(calls, j, k, key))
    && forall j: nat | Live(calls, j, k, key) :: j < k && key in rate && rate[key] == calls[j].now
  }

  lemma AfterOneMore(calls: seq<Call>, k: nat)
    requires k < |calls|
    ensures After(calls[..k + 1]) == Next(After(calls[..k]), calls[k])
  {
    assert calls[..k + 1][..k] == calls[..k];
  }

  lemma LiveOneMore(calls: seq<Call>, j: nat, k: nat, key: string)
    requires k < |calls| && !(calls[k].key == key && Permit(calls, k))
    ensures Live(calls, j, k + 1, key) <==> Live(calls, j, k, key) && calls[k].now - calls[j].now < WINDOW
  {
    hide Permit;
  }

  lemma EntryKept(calls: seq<Call>, k: nat, key: string)
    requires k < |calls| && Entry(calls, k, key) && !(calls[k].key == key && Permit(calls, k))
    ensures Entry(calls, k + 1, key)
  {
    AfterOneMore(calls, k);
    var rate, next := After(calls[..k]), After(calls[..k + 1]);
    assert key in next <==> key in rate && calls[k].now - rate[key] < WINDOW;
    assert key in next ==> next[key] == rate[key];
    hide After, Live, Permit;
    if key in next {
      var j: nat :| Live(calls, j, k, key);
      LiveOneMore(calls, j, k, key);
    }
    forall j: nat | Live(calls, j, k + 1, key)
      ensures j < k + 1 && key in next && next[key] == calls[j].now
    {
      LiveOneMore(calls, j, k, key);
    }
  }

  lemma LiveWhenMade(calls: seq<Call>, j: nat, k: nat)
    requires k < |calls| && Permit(calls, k)
    ensures Live(calls, j, k + 1, calls[k].key) <==> j == k
  {
    hide Permit;
  }

  lemma EntryMade(calls: seq<Call>, k: nat)
    requires k < |calls| && Permit(calls, k)
    ensures Entry(calls, k + 1, calls[k].key)
  {
    AfterOneMore(calls, k);
    var key, next := calls[k].key, After(calls[..k + 1]);
    assert next[key] == calls[k].now;
    hide After, Live, Permit;
    LiveWhenMade(calls, k, k);
    forall j: nat | Live(calls, j, k + 1, key)
      ensures j == k && next[key] == calls[j].now
    {
      LiveWhenMade(calls, j, k);
    }
  }

  lemma {:induction false} MapRemembers(calls: seq<Call>, k: nat, key: string)
    requires k <= |calls|
    ensures Entry(calls, k, key)
  {
    if k == 0 {
      assert After(calls[..0]) == map[];
    } else {
      hide Entry, Permit;
      MapRemembers(calls, k - 1, key);
      if calls[k - 1].key == key && Permit(calls, k - 1) {
        EntryMade(calls, k - 1);
      } else {
        EntryKept(calls, k - 1, key);
      }
    }
  }

  /** The last permit for the key of call `k` is recent, and no call since saw it a window ago. */
  predicate Holds(calls: seq<Call>, j: nat, k: nat)
    requires k < |calls|
  {
    LastPermit(calls, j, k) && calls[j].key == calls[k].key && Remembered(calls, j, k + 1)
  }

  lemma HoldsIff(calls: seq<Call>, j: nat, k: nat)
    requires k < |calls|
    ensures Holds(calls, j, k) <==> Live(calls, j, k, calls[k].key) && calls[k].now - calls[j].now < WINDOW
  {
    hide Permit;
  }

  /** For any clock: a call is denied exactly when some earlier permit still holds it back. */
  lemma DeniedIff(calls: seq<Call>, k: nat)
    requires k < |calls|
    ensures !Permit(calls, k) <==> exists j: nat :: Holds(calls, j, k)
  {
    var key, rate := calls[k].key, After(calls[..k]);
    MapRemembers(calls, k, key);
    assert !Permit(calls, k) <==> key in rate && calls[k].now - rate[key] < WINDOW;
    hide After, Live, Holds, Permit;
    if !Permit(calls, k) {
      var j: nat :| Live(calls, j, k, key);
      HoldsIff(calls, j, k);
    }
    forall j: nat | Holds(calls, j, k)
      ensures !Permit(calls, k)
    {
      HoldsIff(calls, j, k);
    }
  }

  // ---------------------------------------------------------------------------
  // Against the full history
  // ---------------------------------------------------------------------------

  /** An earlier permit of the key is recent. */
  predicate Recent(calls: seq<Call>, j: nat, k: nat)
    requires j < k < |calls|
  {
    calls[j].key == calls[k].key && Permit(calls, j) && calls[k].now - calls[j].now < WINDOW
  }

  /** Call `k` is denied exactly for a recent permit, forgotten or not. */
  predicate Agrees(calls: seq<Call>, k: nat)
    requires k < |calls|
  {
    !Permit(calls, k) <==> exists j: nat :: j < k && Recent(calls, j, k)
  }

  /** Somebody saw the clock a window past call `i`, and then call `k` saw it back within the window. */
  predicate FallsBack(nows: seq<int>, i: nat, j: nat, k: nat) {
    i < j < k < |nows| && nows[j] - nows[i] >= WINDOW && nows[k] - nows[i] < WINDOW
  }

  ghost predicate NeverFallsBack(nows: seq<int>) {
    forall i: nat, j: nat, k: nat :: !FallsBack(nows, i, j, k)
  }

  function Calls(keys: seq<string>, nows: seq<int>): seq<Call>
    requires |keys| == |nows|
  {
    seq(|keys|, i requires 0 <= i < |keys| => Call(keys[i], nows[i]))
  }

  lemma {:induction false} LastOne(calls: seq<Call>, j: nat, k: nat) returns (l: nat)
    requires j < k <= |calls| && Permit(calls, j)
    ensures j <= l && LastPermit(calls, l, k) && calls[l].key == calls[j].key
    decreases k - j
  {
    hide Permit;
    l := j;
    if !LastPermit(calls, j, k) {
      var i: nat :| j < i < k && calls[i].key == calls[j].key && Permit(calls, i);
      l := LastOne(calls, i, k);
    }
  }

  lemma SteadyAgrees(keys: seq<string>, nows: seq<int>, k: nat)
    requires |keys| == |nows| && k < |nows| && NeverFallsBack(nows)
    requires forall i | 0 <= i < k :: Agrees(Calls(keys, nows), i)
    ensures Agrees(Calls(keys, nows), k)
  {
    var calls := Calls(keys, nows);
    hide Permit;
    DeniedIff(calls, k);
    if !Permit(calls, k) {
      var j: nat :| Holds(calls, j, k);
      assert Recent(calls, j, k);
    }
    forall j: nat | j < k && Recent(calls, j, k)
      ensures !Permit(calls, k)
    {
      SteadyHolds(keys, nows, j, k);
    }
  }

  lemma SteadyHolds(keys: seq<string>, nows: seq<int>, j: nat, k: nat)
    requires |keys| == |nows| && j < k < |nows| && NeverFallsBack(nows)
    requires forall i | 0 <= i < k :: Agrees(Calls(keys, nows), i)
    requires Recent(Calls(keys, nows), j, k)
    ensures exists l: nat :: Holds(Calls(keys, nows), l, k)
  {
    var calls := Calls(keys, nows);
    hide Permit;
    var l := LastOne(calls, j, k);
    assert calls[k].now - calls[l].now < WINDOW by {
      if j < l {
        assert Agrees(calls, l) && Permit(calls, l);
        assert !Recent(calls, j, l);
        assert !FallsBack(nows, j, l, k);
      }
    }
    hide Agrees;
    forall i: nat | l < i < k + 1
      ensures calls[i].now - calls[l].now < WINDOW
    {
      assert !FallsBack(nows, l, i, k);
    }
    assert Remembered(calls, l, k + 1);
    assert Holds(calls, l, k);
  }

  lemma {:induction false} SteadyAgreesUpTo(keys: seq<string>, nows: seq<int>, k: nat)
    requires |keys| == |nows| && k <= |nows| && NeverFallsBack(nows)
    ensures forall i | 0 <= i < k :: Agrees(Calls(keys, nows), i)
  {
    hide Agrees, Calls, NeverFallsBack;
    if k > 0 {
      SteadyAgreesUpTo(keys, nows, k - 1);
      SteadyAgrees(keys, nows, k - 1);
    }
  }

  /** The key of calls `i` and `k`, and of no other. */
  function OnlyAt(n: nat, i: nat, k: nat): (keys: seq<string>)
    ensures |keys| == n
  {
    seq(n, x => if x == i || x == k then "x" else "")
  }

  lemma FallingBackDisagrees(nows: seq<int>, i: nat, j: nat, k: nat)
    requires FallsBack(nows, i, j, k)
    ensures !Agrees(Calls(OnlyAt(|nows|, i, k), nows), k)
  {
    var calls := Calls(OnlyAt(|nows|, i, k), nows);
    assert forall x | 0 <= x < |nows| :: calls[x].key == "x" <==> x == i || x == k;
    assert forall x | 0 <= x < |nows| :: calls[x].now == nows[x];
    hide Permit, Calls, OnlyAt;
    DeniedIff(calls, i);
    assert Permit(calls, i);
    DeniedIff(calls, k);
    assert Permit(calls, k) by {
      forall l: nat
        ensures !Holds(calls, l, k)
      {
        assert calls[j].now - calls[i].now >= WINDOW;
        assert l < k ==> l == i || calls[l].key != calls[k].key;
      }
    }
    assert Recent(calls, i, k);
  }

  /** The limiter that remembers every push it ever allowed, on its own: it allows a call when none was recent. */
  predicate FullPermit(calls: seq<Call>, k: nat)
    requires k < |calls|
  {
    forall j: nat | j < k && calls[j].key == calls[k].key && FullPermit(calls, j) ::
      calls[k].now - calls[j].now >= WINDOW
  }

  lemma {:induction false} SameAnswers(calls: seq<Call>, k: nat)
    requires k < |calls| && forall i | 0 <= i <= k :: Agrees(calls, i)
    ensures Permit(calls, k) <==> FullPermit(calls, k)
  {
    hide Permit;
    forall j: nat | j < k
      ensures Permit(calls, j) <==> FullPermit(calls, j)
    {
      SameAnswers(calls, j);
    }
    assert Agrees(calls, k);
    assert forall j: nat | j < k && calls[j].key == calls[k].key && FullPermit(calls, j) ::
        Recent(calls, j, k) <==> calls[k].now - calls[j].now < WINDOW;
  }

  lemma SameAnswersAgree(calls: seq<Call>, k: nat)
    requires k < |calls| && forall i: nat | i <= k :: Permit(calls, i) <==> FullPermit(calls, i)
    ensures Agrees(calls, k)
  {
    hide Permit;
    if !FullPermit(calls, k) {
      var j: nat :| j < k && calls[j].key == calls[k].key && FullPermit(calls, j)
                    && calls[k].now - calls[j].now < WINDOW;
      assert Recent(calls, j, k);
    }
  }

  /**
   The limiter that forgets answers like the one that does not, for whatever keys are called
   at these times, exactly when the clock never falls back below a window it has passed.
   */
  lemma ForgettingIsSafeIff(nows: seq<int>)
    ensures (forall keys: seq<string>, k | |keys| == |nows| && 0 <= k < |nows| ::
               Permit(Calls(keys, nows), k) <==> FullPermit(Calls(keys, nows), k))
            <==> NeverFallsBack(nows)
  {
    hide Agrees, OnlyAt, Permit, FullPermit;
    if NeverFallsBack(nows) {
      forall keys: seq<string>, k | |keys| == |nows| && 0 <= k < |nows|
        ensures Permit(Calls(keys, nows), k) <==> FullPermit(Calls(keys, nows), k)
      {
        SteadyAgreesUpTo(keys, nows, |nows|);
        SameAnswers(Calls(keys, nows), k);
      }
    } else {
      var i: nat, j: nat, k: nat :| FallsBack(nows, i, j, k);
      FallingBackDisagrees(nows, i, j, k);
      var keys := OnlyAt(|nows|, i, k);
      if forall l: nat | l <= k :: Permit(Calls(keys, nows), l) <==> FullPermit(Calls(keys, nows), l) {
        SameAnswersAgree(Calls(keys, nows), k);
        assert false;
      }
      var l: nat :| l <= k && !(Permit(Calls(keys, nows), l) <==> FullPermit(Calls(keys, nows), l));
      assert 0 <= l < |nows| && |keys| == |nows|;
    }
  }

  /** While the clock does not go back, two pushes for one key are a window apart, and a denial has a push behind it. */
  lemma OnePushPerWindow(calls: seq<Call>, k: nat)
    requires forall i, j | 0 <= i < j < |calls| :: calls[i].now <= calls[j].now
    requires k < |calls|
    ensures forall j | 0 <= j < k && calls[j].key == calls[k].key && Permit(calls, j) && Permit(calls, k) ::
              calls[k].now - calls[j].now >= WINDOW
    ensures !Permit(calls, k) ==>
              exists j: nat :: j < k && Recent(calls, j, k)
  {
    var nows := seq(|calls|, i requires 0 <= i < |calls| => calls[i].now);
    var keys := seq(|calls|, i requires 0 <= i < |calls| => calls[i].key);
    assert Calls(keys, nows) == calls;
    SteadyAgreesUpTo(keys, nows, |nows|);
    assert Agrees(calls, k);
    hide Permit, Calls;
    forall j | 0 <= j < k && calls[j].key == calls[k].key && Permit(calls, j) && Permit(calls, k)
      ensures calls[k].now - calls[j].now >= WINDOW
    {
      assert !Recent(calls, j, k);
    }
  }

  /** Two pairs share one limit exactly when they are equal or a separator inside them can be read either way. */
  lemma SharedLimitIff(device: string, session: string, other: string, theirs: string)
    requires |device| <= |other|
    ensures Key(device, session) == Key(other, theirs) <==>
            || (device == other && session == theirs)
            || exists x :: other == device + "|" + x && session == x + "|" + theirs
  {
    var a, b := Key(device, session), Key(other, theirs);
    var n, m := |device|, |other|;
    if a == b {
      assert device == a[..n] == b[..n] == other[..n];
      assert session == a[n + 1..] && theirs == b[m + 1..];
      if n < m {
        var x := other[n + 1..];
        assert other[n] == b[n] == a[n] == '|';
        assert other == device + "|" + x;
        assert session == b[n + 1..] == x + "|" + theirs;
      }
    }
    if x :| other == device + "|" + x && session == x + "|" + theirs {
      assert a == device + "|" + (x + "|" + theirs) == b;
    }
  }

  /** Two such pairs. */
  lemma TwoPairsShareALimit()
    ensures Key("a|b", "c") == Key("a", "b|c") && ("a|b", "c") != ("a", "b|c")
  {
    assert "a|b" + "|" + "c" == "a" + "|" + "b|c";
  }
}
