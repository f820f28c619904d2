/**
 Identifiers that sort by creation: a prefix, twelve hexadecimal digits made of time and
 counter, and random characters. How their order as strings follows from the order of creation.
 */
module SortableId {
  import Lex
  import Utf8

  /** Counter values that fit beside one millisecond. */
  const PER_TICK: nat := 0x1000
  /** The six bytes written out. */
  const WINDOW: nat := 0x1_0000_0000_0000
  const HEX: string := "0123456789abcdef"

  // ---------------------------------------------------------------------------
  // Six bytes, twelve digits
  // ---------------------------------------------------------------------------

  function Pow(b: nat, n: nat): (r: nat)
    ensures b > 0 ==> r > 0
  {
    if n == 0 then 1 else b * Pow(b, n - 1)
  }

  /** The last `n` hexadecimal digits of `v`, highest first. */
  function Digits(v: nat, n: nat): (s: string)
    ensures |s| == n
  {
    if n == 0 then [] else Digits(v / 16, n - 1) + [HEX[v % 16]]
  }

  lemma {:induction false} Grows(d: nat, k: nat)
    requires k > 0
    ensures d * k >= d
  {
    if k > 1 {
      Grows(d, k - 1);
      assert d * k == d * (k - 1) + d;
    }
  }

  lemma OneQuotient(d: nat, q: int, r: int, p: int, s: int)
    requires 0 <= r < d && 0 <= s < d && d * q + r == d * p + s
    ensures q == p && r == s
  {
    assert d * (p - q) == d * p - d * q;
    if q < p {
      Grows(d, p - q);
    } else if p < q {
      Grows(d, q - p);
    }
  }

  lemma Quotient(v: int, d: nat, q: int, r: int)
    requires 0 <= r < d && v == d * q + r
    ensures v / d == q && v % d == r
  {
    assert v == d * (v / d) + v % d;
    OneQuotient(d, q, r, v / d, v % d);
  }

  lemma LowDigit(v: nat, n: nat)
    requires n > 0
    ensures v % Pow(16, n) == 16 * ((v / 16) % Pow(16, n - 1)) + v % 16
  {
    var m := Pow(16, n - 1);
    var q, r := v / 16 / m, (v / 16) % m;
    assert v == 16 * (m * q + r) + v % 16;
    assert 16 * (m * q + r) == 16 * m * q + 16 * r;
    Quotient(v, 16 * m, q, 16 * r + v % 16);
  }

  lemma LessLast(a: string, b: string, c: char, d: char)
    requires |a| == |b|
    ensures Lex.Less(a + [c], b + [d]) <==> Lex.Less(a, b) || (a == b && c < d)
  {
    if a == b {
      Lex.SamePrefix(a, [c], [d]);
      Lex.Irreflexive(a);
    } else {
      Lex.FixedWidth(a, b, [c], [d]);
    }
  }

  /** Digits of the same number of places compare as the numbers they keep. */
  lemma {:induction false} DigitsOrder(a: nat, b: nat, n: nat)
    ensures Lex.Less(Digits(a, n), Digits(b, n)) <==> a % Pow(16, n) < b % Pow(16, n)
    ensures Digits(a, n) == Digits(b, n) <==> a % Pow(16, n) == b % Pow(16, n)
  {
    if n > 0 {
      DigitsOrder(a / 16, b / 16, n - 1);
      LowDigit(a, n);
      LowDigit(b, n);
      var x, y := HEX[a % 16], HEX[b % 16];
      HexOrder(a % 16, b % 16);
      LessLast(Digits(a / 16, n - 1), Digits(b / 16, n - 1), x, y);
      assert (Digits(a / 16, n - 1) + [x])[n - 1] == x && (Digits(b / 16, n - 1) + [y])[n - 1] == y;
      assert (Digits(a / 16, n - 1) + [x])[..n - 1] == Digits(a / 16, n - 1);
      assert (Digits(b / 16, n - 1) + [y])[..n - 1] == Digits(b / 16, n - 1);
    }
  }

  lemma HexOrder(x: nat, y: nat)
    requires x < 16 && y < 16
    ensures (HEX[x] < HEX[y] <==> x < y) && (HEX[x] == HEX[y] <==> x == y)
  {
    assert forall d | 0 <= d < 16 :: HEX[d] == if d < 10 then '0' + d as char else 'a' + (d - 10) as char;
  }

  /** The number that a string of hexadecimal digits stands for. */
  function ReadHex(s: string): int {
    if s == [] then 0
    else
      var c := s[|s| - 1] as int;
      16 * ReadHex(s[..|s| - 1]) + if c < 0x3A then c - 0x30 else c - 0x61 + 10
  }

  predicate IsHexDigit(c: char) {
    0x30 <= c as int <= 0x39 || 0x61 <= c as int <= 0x66
  }

  /** The digits are lower-case hexadecimal ones, and reading them gives the number back. */
  lemma {:induction false} DigitsReadBack(v: nat, n: nat)
    ensures ReadHex(Digits(v, n)) == v % Pow(16, n)
    ensures forall i | 0 <= i < n :: IsHexDigit(Digits(v, n)[i])
  {
    if n > 0 {
      DigitsReadBack(v / 16, n - 1);
      LowDigit(v, n);
      assert Digits(v, n)[..n - 1] == Digits(v / 16, n - 1) && Digits(v, n)[n - 1] == HEX[v % 16];
      HexDigitOf(v % 16);
    }
  }

  lemma HexDigitOf(d: nat)
    requires d < 16
    ensures IsHexDigit(HEX[d]) && HEX[d] as int == if d < 10 then 0x30 + d else 0x61 + d - 10
  {
  }

  lemma WindowIsPow()
    ensures Pow(16, 12) == WINDOW
  {
    assert Pow(16, 3) == 0x1000 by { assert Pow(16, 1) == 16 && Pow(16, 2) == 0x100; }
    assert Pow(16, 6) == 0x100_0000 by { assert Pow(16, 4) == 0x1_0000 && Pow(16, 5) == 0x10_0000; }
    assert Pow(16, 9) == 0x10_0000_0000 by { assert Pow(16, 7) == 0x1000_0000 && Pow(16, 8) == 0x1_0000_0000; }
    assert Pow(16, 10) == 0x100_0000_0000 && Pow(16, 11) == 0x1000_0000_0000;
  }

  // ---------------------------------------------------------------------------
  // Identifiers
  // ---------------------------------------------------------------------------

  /** The 48-bit value written out; a descending identifier has every bit inverted. */
  function Written(code: nat, descending: bool): nat {
    if descending then (-1 - code) % WINDOW else code
  }

  function Id(prefix: string, code: nat, descending: bool, random: string): string {
    prefix + "_" + Digits(Written(code, descending), 12) + random
  }

  lemma InvertedLow(code: nat)
    ensures Written(code, true) == WINDOW - 1 - code % WINDOW
  {
    Quotient(-1 - code, WINDOW, -1 - code / WINDOW, WINDOW - 1 - code % WINDOW);
  }

  lemma IdIs(prefix: string, code: nat, descending: bool, random: string)
    ensures Id(prefix, code, descending, random) == (prefix + "_") + (Digits(Written(code, descending), 12) + random)
  {
  }

  lemma IdOrder(prefix: string, a: nat, b: nat, descending: bool, r: string, q: string)
    ensures var x, y := Written(a, descending) % WINDOW, Written(b, descending) % WINDOW;
            Lex.Less(Id(prefix, a, descending, r), Id(prefix, b, descending, q)) <==>
            x < y || (x == y && Lex.Less(r, q))
  {
    var s, t := Digits(Written(a, descending), 12), Digits(Written(b, descending), 12);
    WindowIsPow();
    DigitsOrder(Written(a, descending), Written(b, descending), 12);
    hide *;
    IdIs(prefix, a, descending, r);
    IdIs(prefix, b, descending, q);
    var p := prefix + "_";
    Lex.SamePrefix(p, s + r, t + q);
    if s == t {
      Lex.SamePrefix(s, r, q);
    } else {
      Lex.FixedWidth(s, t, r, q);
    }
  }

  /**
   Ascending identifiers with one prefix sort as their codes modulo the window, descending ones
   the other way round; the random characters decide only between equal codes.
   */
  lemma SortsByCode(prefix: string, a: nat, b: nat, r: string, q: string)
    ensures Lex.Less(Id(prefix, a, false, r), Id(prefix, b, false, q)) <==>
            a % WINDOW < b % WINDOW || (a % WINDOW == b % WINDOW && Lex.Less(r, q))
    ensures Lex.Less(Id(prefix, a, true, r), Id(prefix, b, true, q)) <==>
            b % WINDOW < a % WINDOW || (a % WINDOW == b % WINDOW && Lex.Less(r, q))
  {
    hide Id;
    IdOrder(prefix, a, b, false, r, q);
    IdOrder(prefix, a, b, true, r, q);
    InvertedLow(a);
    InvertedLow(b);
  }

  // ---------------------------------------------------------------------------
  // The clock and the counter
  // ---------------------------------------------------------------------------

  datatype State = State(lastTimestamp: nat, counter: nat)

  function Tick(s: State, ts: nat): State {
    if ts != s.lastTimestamp then State(ts, 1) else State(ts, s.counter + 1)
  }

  function Code(s: State): nat {
    s.lastTimestamp * PER_TICK + s.counter
  }

  /** The state after creating identifiers at the times `calls`, in the order they took the lock. */
  function After(calls: seq<nat>): State {
    if calls == [] then State(0, 0)
    else Tick(After(calls[..|calls| - 1]), calls[|calls| - 1])
  }

  /** The code of the identifier created by call `k`. */
  function CodeOf(calls: seq<nat>, k: nat): nat
    requires k < |calls|
  {
    Code(After(calls[..k + 1]))
  }

  /** How many identifiers in a row, up to call `k`, had its time. */
  function CounterOf(calls: seq<nat>, k: nat): nat
    requires k < |calls|
  {
    After(calls[..k + 1]).counter
  }

  lemma CodeIs(calls: seq<nat>, k: nat)
    requires k < |calls|
    ensures CodeOf(calls, k) == calls[k] * PER_TICK + CounterOf(calls, k)
    ensures CounterOf(calls, k) >= 1
    ensures k > 0 ==> CounterOf(calls, k) ==
                      if calls[k] == calls[k - 1] then CounterOf(calls, k - 1) + 1 else 1
  {
    assert calls[..k + 1][..k] == calls[..k];
    if k > 0 {
      assert After(calls[..k]).lastTimestamp == calls[k - 1];
    }
  }

  /** The calls from `i` to `k` all had the time of call `k`. */
  predicate SameTime(calls: seq<nat>, i: int, k: nat)
    requires k < |calls|
  {
    0 <= i <= k && forall j | i <= j <= k :: calls[j] == calls[k]
  }

  /** A code is 4096 times the time, and how many calls in a row had that time so far. */
  lemma {:induction false} CodeCounts(calls: seq<nat>, k: nat)
    requires k < |calls|
    ensures var n := CodeOf(calls, k) - calls[k] * 4096;
            && SameTime(calls, k + 1 - n, k)
            && (k + 1 - n > 0 ==> calls[k - n] != calls[k])
  {
    CodeIs(calls, k);
    FirstCounter(calls);
    hide CodeOf, CounterOf;
    if k > 0 {
      CodeIs(calls, k - 1);
      if calls[k] == calls[k - 1] {
        CodeCounts(calls, k - 1);
      }
    }
  }

  /** Time stands still or moves on, and past a millisecond far enough for what it was asked. */
  predicate KeepsPace(calls: seq<nat>, k: nat)
    requires k + 1 < |calls|
  {
    calls[k] == calls[k + 1] ||
    (calls[k] < calls[k + 1] && CounterOf(calls, k) <= PER_TICK * (calls[k + 1] - calls[k]))
  }

  lemma NextCodeIff(calls: seq<nat>, k: nat)
    requires k + 1 < |calls|
    ensures CodeOf(calls, k) < CodeOf(calls, k + 1) <==> KeepsPace(calls, k)
  {
    CodeIs(calls, k);
    CodeIs(calls, k + 1);
    hide CodeOf, CounterOf;
  }

  lemma {:induction false} PaceAddsUp(calls: seq<nat>, i: nat, j: nat)
    requires i < j < |calls| && forall k | 0 <= k && k + 1 < |calls| :: KeepsPace(calls, k)
    ensures CodeOf(calls, i) < CodeOf(calls, j)
  {
    hide CodeOf, KeepsPace;
    if i + 1 < j {
      PaceAddsUp(calls, i, j - 1);
    }
    assert j - 1 + 1 < |calls|;
    NextCodeIff(calls, j - 1);
  }

  /** Codes grow from call to call exactly when every call keeps pace. */
  lemma CodesGrowIff(calls: seq<nat>)
    ensures (forall i, j | 0 <= i < j < |calls| :: CodeOf(calls, i) < CodeOf(calls, j)) <==>
            (forall k | 0 <= k && k + 1 < |calls| :: KeepsPace(calls, k))
  {
    hide CodeOf, KeepsPace;
    if forall i, j | 0 <= i < j < |calls| :: CodeOf(calls, i) < CodeOf(calls, j) {
      forall k | 0 <= k && k + 1 < |calls|
        ensures KeepsPace(calls, k)
      {
        NextCodeIff(calls, k);
      }
    }
    if forall k | 0 <= k && k + 1 < |calls| :: KeepsPace(calls, k) {
      forall i, j | 0 <= i < j < |calls|
        ensures CodeOf(calls, i) < CodeOf(calls, j)
      {
        PaceAddsUp(calls, i, j);
      }
    }
  }

  /** A clock that does not go back, and at most `PER_TICK` identifiers in one millisecond. */
  predicate Steady(calls: seq<nat>) {
    && (forall k | 0 <= k && k + 1 < |calls| :: calls[k] <= calls[k + 1])
    && forall k | 0 <= k < |calls| :: CounterOf(calls, k) <= PER_TICK
  }

  /** With a steady clock and codes in one window, identifiers sort by creation whatever their random part. */
  lemma SteadyClockSorts(calls: seq<nat>, i: nat, j: nat, prefix: string, r: string, q: string)
    requires Steady(calls) && i < j < |calls|
    requires CodeOf(calls, i) / WINDOW == CodeOf(calls, j) / WINDOW
    ensures Lex.Less(Id(prefix, CodeOf(calls, i), false, r), Id(prefix, CodeOf(calls, j), false, q))
    ensures Lex.Less(Id(prefix, CodeOf(calls, j), true, q), Id(prefix, CodeOf(calls, i), true, r))
  {
    hide CodeOf, CounterOf, Id;
    forall k | 0 <= k && k + 1 < |calls|
      ensures KeepsPace(calls, k)
    {
      if calls[k] < calls[k + 1] {
        assert PER_TICK * 1 <= PER_TICK * (calls[k + 1] - calls[k]);
      }
    }
    PaceAddsUp(calls, i, j);
    var a, b := CodeOf(calls, i), CodeOf(calls, j);
    assert a % WINDOW < b % WINDOW;
    SortsByCode(prefix, a, b, r, q);
    SortsByCode(prefix, b, a, q, r);
  }

  /**
   Two codes less than a window apart: the later identifier sorts later exactly when no multiple
   of the window lies between them.
   */
  lemma SortsChronologicallyIff(prefix: string, a: nat, b: nat, r: string, q: string)
    requires a < b < a + WINDOW
    ensures Lex.Less(Id(prefix, a, false, r), Id(prefix, b, false, q)) <==> a / WINDOW == b / WINDOW
    ensures Lex.Less(Id(prefix, b, true, q), Id(prefix, a, true, r)) <==> a / WINDOW == b / WINDOW
  {
    hide Id;
    SortsByCode(prefix, a, b, r, q);
    SortsByCode(prefix, b, a, q, r);
  }

  lemma TwoCalls(calls: seq<nat>)
    requires |calls| == 2 && calls[0] < calls[1]
    ensures Steady(calls)
    ensures CodeOf(calls, 0) == calls[0] * PER_TICK + 1 && CodeOf(calls, 1) == calls[1] * PER_TICK + 1
  {
    FirstCounter(calls);
    CodeIs(calls, 0);
    CodeIs(calls, 1);
    hide CodeOf, CounterOf;
  }

  lemma AcrossTheEnd(prefix: string, a: nat, b: nat, r: string, q: string)
    requires 25 * WINDOW <= a < 26 * WINDOW <= b && b - WINDOW < a
    ensures Lex.Less(Id(prefix, b, false, q), Id(prefix, a, false, r))
  {
    hide *;
    Quotient(a, WINDOW, 25, a - 25 * WINDOW);
    Quotient(b, WINDOW, 26, b - 26 * WINDOW);
    SortsByCode(prefix, b, a, q, r);
  }

  /**
   The window is 2^36 milliseconds, some 795 days, and the 26th ends on 14 August 2026: two
   identifiers made a millisecond apart that day sort backwards.
   */
  lemma WindowEnds(calls: seq<nat>, prefix: string, r: string, q: string)
    requires calls == [26 * 0x10_0000_0000 - 1, 26 * 0x10_0000_0000]
    ensures Steady(calls)
    ensures Lex.Less(Id(prefix, CodeOf(calls, 1), false, q), Id(prefix, CodeOf(calls, 0), false, r))
  {
    TwoCalls(calls);
    hide *;
    AcrossTheEnd(prefix, CodeOf(calls, 0), CodeOf(calls, 1), r, q);
  }

  lemma FirstCounter(calls: seq<nat>)
    requires calls != []
    ensures CounterOf(calls, 0) == 1
  {
    assert calls[..1][..0] == [];
    assert After([]) == State(0, 0);
  }

  // ---------------------------------------------------------------------------
  // Creating an identifier
  // ---------------------------------------------------------------------------

  /** The last `n` bytes of `v`, highest first. */
  function Bytes(v: nat, n: nat): (bs: seq<Utf8.Byte>)
    ensures |bs| == n
  {
    if n == 0 then [] else Bytes(v / 256, n - 1) + [v % 256]
  }

  lemma Gap(b: nat, t: nat, c: nat)
    requires t < c
    ensures b * t + b <= b * c
  {
    Grows(b, c - t);
    assert b * c == b * t + b * (c - t);
  }

  lemma DivDiv(v: nat, b: nat, c: nat)
    requires b > 0 && c > 0
    ensures b * c > 0 && v / b / c == v / (b * c)
  {
    hide *;
    var q, r := v / b, v % b;
    var p, t := q / c, q % c;
    Gap(b, t, c);
    Nested(b, c, p, t);
    Quotient(v, b * c, p, b * t + r);
  }

  lemma Nested(b: nat, c: nat, p: nat, t: nat)
    ensures b * (c * p + t) == b * c * p + b * t
  {
  }

  lemma {:induction false} ByteAt(v: nat, n: nat, i: nat)
    requires i < n
    ensures Bytes(v, n)[i] == v / Pow(256, n - 1 - i) % 256
  {
    if i + 1 < n {
      ByteAt(v / 256, n - 1, i);
      DivDiv(v, 256, Pow(256, n - 2 - i));
    }
  }

  /** Two digits for each byte. */
  function HexOf(bs: seq<Utf8.Byte>): string
  {
    if bs == [] then []
    else
      var last := bs[|bs| - 1];
      HexOf(bs[..|bs| - 1]) + [HEX[last / 16], HEX[last % 16]]
  }

  lemma {:induction false} HexOfBytes(v: nat, n: nat)
    ensures HexOf(Bytes(v, n)) == Digits(v, 2 * n)
  {
    if n > 0 {
      HexOfBytes(v / 256, n - 1);
      assert Bytes(v, n)[..n - 1] == Bytes(v / 256, n - 1);
      TwoDigits(v, n);
    }
  }

  lemma LastDigit(v: nat, m: nat)
    requires m > 0
    ensures Digits(v, m) == Digits(v / 16, m - 1) + [HEX[v % 16]]
  {
  }

  lemma TwoDigits(v: nat, n: nat)
    requires n > 0
    ensures Digits(v, 2 * n) == Digits(v / 256, 2 * (n - 1)) + [HEX[v % 256 / 16], HEX[v % 256 % 16]]
  {
    LastDigit(v, 2 * n);
    LastDigit(v / 16, 2 * n - 1);
    ByteInTwo(v);
    hide *;
    var high, low := HEX[v / 16 % 16], HEX[v % 16];
    assert Digits(v / 256, 2 * n - 2) + [high] + [low] == Digits(v / 256, 2 * n - 2) + [high, low];
  }

  lemma ByteInTwo(v: nat)
    ensures v % 256 / 16 == v / 16 % 16 && v % 256 % 16 == v % 16 && v / 16 / 16 == v / 256
  {
    hide *;
    var q, low := v / 16, v % 16;
    var top, mid := q / 16, q % 16;
    Quotient(v, 256, top, 16 * mid + low);
    Quotient(16 * mid + low, 16, mid, low);
  }

  /** The shift that brings byte `i` of six down to the low byte. */
  function Shift(i: nat): (d: nat)
    requires i < 6
    ensures d > 0
  {
    [0x100_0000_0000, 0x1_0000_0000, 0x100_0000, 0x1_0000, 0x100, 1][i]
  }

  lemma ShiftIsPow(i: nat)
    requires i < 6
    ensures Shift(i) == Pow(256, 5 - i)
  {
    assert Pow(256, 1) == 0x100 && Pow(256, 2) == 0x1_0000 && Pow(256, 3) == 0x100_0000;
    assert Pow(256, 4) == 0x1_0000_0000 && Pow(256, 5) == 0x100_0000_0000;
  }

  /** Fills in the six bytes, highest first. */
  method TimeHex(now: nat) returns (timeHex: array<Utf8.Byte>)
    ensures fresh(timeHex) && timeHex[..] == Bytes(now, 6)
  {
    timeHex := new Utf8.Byte[6];
    for i := 0 to 6
      invariant timeHex[..i] == Bytes(now, 6)[..i]
    {
      ByteAt(now, 6, i);
      ShiftIsPow(i);
      hide *;
      timeHex[i] := now / Shift(i) % 256;
      assert timeHex[..i + 1] == timeHex[..i] + [timeHex[i]];
    }
    assert timeHex[..] == timeHex[..6];
  }

  class Generator {
    var lastTimestamp: nat
    var counter: nat

    ghost function View(): State
      reads this
    {
      State(lastTimestamp, counter)
    }

    constructor ()
      ensures View() == State(0, 0)
    {
      lastTimestamp, counter := 0, 0;
    }

    /** Creates an identifier at time `ts` with random characters `random`. */
    method Create(prefix: string, descending: bool, ts: nat, random: string) returns (id: string)
      modifies this
      ensures View() == Tick(old(View()), ts)
      ensures id == Id(prefix, Code(View()), descending, random)
    {
      hide Digits, Bytes, HexOf, Pow, Shift;
      if ts != lastTimestamp {
        lastTimestamp := ts;
        counter := 0;
      }
      counter := counter + 1;
      var now: int := ts * PER_TICK + counter;
      if descending {
        now := (-1 - now) % WINDOW;
      }
      assert now == Written(Code(View()), descending);
      hide Written, Code;
      var timeHex := TimeHex(now);
      HexOfBytes(now, 6);
      id := prefix + "_" + HexOf(timeHex[..]) + random;
    }
  }
}
