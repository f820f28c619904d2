/**
 The UTF-16 encoding form of section 2 of RFC 2781, with Go's rule for malformed
 input: an unpaired surrogate decodes to one U+FFFD.
 */
module Utf16 {
  import opened Utf8

  type Unit = x: int | 0 <= x < 0x1_0000

  predicate IsHigh(u: Unit) {
    0xD800 <= u < 0xDC00
  }

  predicate IsLow(u: Unit) {
    0xDC00 <= u < 0xE000
  }

  function EncodeUnits(r: Rune): (us: seq<Unit>)
    ensures 1 <= |us| <= 2
  {
    if r < 0x1_0000 then [r]
    else [0xD800 + (r - 0x1_0000) / 0x400, 0xDC00 + (r - 0x1_0000) % 0x400]
  }

  function Units(rs: seq<Rune>): seq<Unit> {
    if rs == [] then [] else EncodeUnits(rs[0]) + Units(rs[1..])
  }

  predicate StartsWithPair(us: seq<Unit>) {
    2 <= |us| && IsHigh(us[0]) && IsLow(us[1])
  }

  function FirstOfUnits(us: seq<Unit>): Rune
    requires us != []
  {
    if StartsWithPair(us) then 0x1_0000 + (us[0] - 0xD800) * 0x400 + (us[1] - 0xDC00)
    else if IsHigh(us[0]) || IsLow(us[0]) then REPLACEMENT
    else us[0]
  }

  function UnitWidth(us: seq<Unit>): (n: nat)
    requires us != []
    ensures 1 <= n <= |us|
  {
    if StartsWithPair(us) then 2 else 1
  }

  function RunesOf(us: seq<Unit>): seq<Rune> {
    if us == [] then [] else [FirstOfUnits(us)] + RunesOf(us[UnitWidth(us)..])
  }

  // ---------------------------------------------------------------------------
  // Encoding and decoding are inverse on well-formed text
  // ---------------------------------------------------------------------------

  lemma RunesOfEncodedRune(r: Rune, tail: seq<Unit>)
    ensures RunesOf(EncodeUnits(r) + tail) == [r] + RunesOf(tail)
  {
    var us := EncodeUnits(r) + tail;
    assert us[|EncodeUnits(r)|..] == tail;
    assert us[0] == EncodeUnits(r)[0];
    assert r >= 0x1_0000 ==> us[1] == EncodeUnits(r)[1];
  }

  lemma {:induction false} RunesOfUnits(rs: seq<Rune>, tail: seq<Unit>)
    ensures RunesOf(Units(rs) + tail) == rs + RunesOf(tail)
  {
    hide EncodeUnits, RunesOf;
    if rs == [] {
      assert Units(rs) + tail == tail;
      assert rs + RunesOf(tail) == RunesOf(tail);
    } else {
      var rest := Units(rs[1..]) + tail;
      assert Units(rs) + tail == EncodeUnits(rs[0]) + rest;
      RunesOfEncodedRune(rs[0], rest);
      RunesOfUnits(rs[1..], tail);
      assert [rs[0]] + (rs[1..] + RunesOf(tail)) == rs + RunesOf(tail);
    }
  }

  lemma {:induction false} UnitsConcat(rs: seq<Rune>, rs': seq<Rune>)
    ensures Units(rs + rs') == Units(rs) + Units(rs')
  {
    if rs == [] {
      assert rs + rs' == rs';
    } else {
      assert (rs + rs')[1..] == rs[1..] + rs';
      UnitsConcat(rs[1..], rs');
    }
  }

  /** However malformed the units are, decoding keeps their UTF-16 length. */
  lemma {:induction false} DecodingKeepsLength(us: seq<Unit>)
    ensures |Units(RunesOf(us))| == |us|
  {
    if us != [] {
      var rest := us[UnitWidth(us)..];
      DecodingKeepsLength(rest);
      assert RunesOf(us)[1..] == RunesOf(rest);
    }
  }

  // ---------------------------------------------------------------------------
  // Cutting a sequence of units
  // ---------------------------------------------------------------------------

  /** The cut between `a` and `b` lies inside a surrogate pair. */
  predicate SplitsPair(a: seq<Unit>, b: seq<Unit>) {
    a != [] && b != [] && IsHigh(a[|a| - 1]) && IsLow(b[0])
  }

  /** A cut that is not inside a pair does not change the decoded runes. */
  lemma {:induction false} CutBetweenRunes(a: seq<Unit>, b: seq<Unit>)
    requires !SplitsPair(a, b)
    ensures RunesOf(a + b) == RunesOf(a) + RunesOf(b)
  {
    if a == [] {
      assert a + b == b;
    } else {
      var n := UnitWidth(a);
      assert UnitWidth(a + b) == n && FirstOfUnits(a + b) == FirstOfUnits(a);
      assert (a + b)[n..] == a[n..] + b;
      CutBetweenRunes(a[n..], b);
    }
  }

  /** A cut inside a pair turns one rune into two. */
  lemma {:induction false} CutInsidePair(a: seq<Unit>, b: seq<Unit>)
    requires SplitsPair(a, b)
    ensures |RunesOf(a)| + |RunesOf(b)| == |RunesOf(a + b)| + 1
  {
    if |a| == 1 {
      assert (a + b)[2..] == b[1..] && a[1..] == [];
    } else {
      var n := UnitWidth(a);
      assert UnitWidth(a + b) == n;
      assert (a + b)[n..] == a[n..] + b;
      CutInsidePair(a[n..], b);
    }
  }
}
