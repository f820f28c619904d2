/**
 The UTF-8 encoding form, written from the grammar of section 4 of RFC 3629, with
 Go's rule for malformed input: a position where no character of the grammar starts
 consumes one byte and yields one U+FFFD.
 */
module Utf8 {

  type Byte = x: int | 0 <= x < 0x100

  type Text = seq<Byte>

  /** A Unicode scalar value: a code point that is not a surrogate. */
  type Rune = r: int | 0 <= r < 0xD800 || 0xE000 <= r <= 0x10FFFF

  const REPLACEMENT: Rune := 0xFFFD

  // ---------------------------------------------------------------------------
  // The grammar
  // ---------------------------------------------------------------------------

  /** UTF8-tail. */
  predicate Tail(c: Byte) {
    0x80 <= c <= 0xBF
  }

  /** The number of bytes of the characters whose first byte is `c`; 0 if there are none. */
  function CharLen(c: Byte): (n: nat)
    ensures n <= 4
  {
    if c <= 0x7F then 1
    else if 0xC2 <= c <= 0xDF then 2
    else if 0xE0 <= c <= 0xEF then 3
    else if 0xF0 <= c <= 0xF4 then 4
    else 0
  }

  /** The second bytes the grammar allows after the first byte `c`. */
  predicate SecondOk(c: Byte, d: Byte) {
    match c
    case 0xE0 => 0xA0 <= d <= 0xBF
    case 0xED => 0x80 <= d <= 0x9F
    case 0xF0 => 0x90 <= d <= 0xBF
    case 0xF4 => 0x80 <= d <= 0x8F
    case _ => Tail(d)
  }

  /** `b` starts with a character of the grammar. */
  predicate StartsWithChar(b: Text) {
    && b != []
    && var n := CharLen(b[0]);
    && 0 < n <= |b|
    && (2 <= n ==> SecondOk(b[0], b[1]))
    && (3 <= n ==> Tail(b[2]))
    && (4 <= n ==> Tail(b[3]))
  }

  /** Well-formed UTF-8: a sequence of characters of the grammar. */
  predicate Valid(b: Text) {
    b == [] || (StartsWithChar(b) && Valid(b[CharLen(b[0])..]))
  }

  // ---------------------------------------------------------------------------
  // Encoding and decoding
  // ---------------------------------------------------------------------------

  /** The payload of a byte, once its marker bits are taken off. */
  function Payload(c: Byte, marker: Byte): int {
    c as int - marker as int
  }

  /** The code point of the character `b` starts with. */
  function CharValue(b: Text): Rune
    requires StartsWithChar(b)
  {
    match CharLen(b[0])
    case 1 => b[0]
    case 2 => Payload(b[0], 0xC0) * 0x40 + Payload(b[1], 0x80)
    case 3 => Payload(b[0], 0xE0) * 0x1000 + Payload(b[1], 0x80) * 0x40 + Payload(b[2], 0x80)
    case _ =>
      Payload(b[0], 0xF0) * 0x4_0000 + Payload(b[1], 0x80) * 0x1000 + Payload(b[2], 0x80) * 0x40 + Payload(b[3], 0x80)
  }

  /** How many bytes one decoding step consumes. */
  function Width(b: Text): (n: nat)
    requires b != []
    ensures 1 <= n <= |b|
  {
    if StartsWithChar(b) then CharLen(b[0]) else 1
  }

  function FirstRune(b: Text): Rune
    requires b != []
  {
    if StartsWithChar(b) then CharValue(b) else REPLACEMENT
  }

  /** Decodes the whole of `b` at once. */
  function Decode(b: Text): seq<Rune> {
    if b == [] then [] else [FirstRune(b)] + Decode(b[Width(b)..])
  }

  function EncodeRune(r: Rune): (b: Text)
    ensures 1 <= |b| <= 4
  {
    if r < 0x80 then [r]
    else if r < 0x800 then [0xC0 + r / 0x40, 0x80 + r % 0x40]
    else if r < 0x1_0000 then [0xE0 + r / 0x1000, 0x80 + r / 0x40 % 0x40, 0x80 + r % 0x40]
    else [0xF0 + r / 0x4_0000, 0x80 + r / 0x1000 % 0x40, 0x80 + r / 0x40 % 0x40, 0x80 + r % 0x40]
  }

  function Encode(rs: seq<Rune>): Text {
    if rs == [] then [] else EncodeRune(rs[0]) + Encode(rs[1..])
  }

  // ---------------------------------------------------------------------------
  // Encoding and decoding are inverse
  // ---------------------------------------------------------------------------

  /** The base-64 digits of a number. */
  lemma Digits(r: nat, hi: nat, lo: nat)
    requires lo < 0x40
    ensures hi * 0x40 + lo == r <==> hi == r / 0x40 && lo == r % 0x40
  {
  }

  /** An encoded rune is a character of the grammar, whatever follows it. */
  lemma EncodedRuneIsChar(r: Rune, tail: Text)
    ensures var b := EncodeRune(r) + tail;
            StartsWithChar(b) && CharLen(b[0]) == |EncodeRune(r)| && CharValue(b) == r
  {
    if r < 0x80 {
    } else if r < 0x800 {
      Digits(r, r / 0x40, r % 0x40);
    } else if r < 0x1_0000 {
      Digits(r, r / 0x40, r % 0x40);
      Digits(r / 0x40, r / 0x1000, r / 0x40 % 0x40);
    } else {
      Digits(r, r / 0x40, r % 0x40);
      Digits(r / 0x40, r / 0x1000, r / 0x40 % 0x40);
      Digits(r / 0x1000, r / 0x4_0000, r / 0x1000 % 0x40);
    }
  }

  /** A character of the grammar is the encoding of its code point. */
  lemma CharIsEncodedRune(b: Text)
    requires StartsWithChar(b)
    ensures EncodeRune(CharValue(b)) == b[..CharLen(b[0])]
  {
    var r := CharValue(b);
    match CharLen(b[0])
    case 1 =>
    case 2 =>
      Digits(r, Payload(b[0], 0xC0), Payload(b[1], 0x80));
    case 3 =>
      var h := Payload(b[0], 0xE0) * 0x40 + Payload(b[1], 0x80);
      Digits(r, h, Payload(b[2], 0x80));
      Digits(h, Payload(b[0], 0xE0), Payload(b[1], 0x80));
    case _ =>
      var g := Payload(b[0], 0xF0) * 0x40 + Payload(b[1], 0x80);
      var h := g * 0x40 + Payload(b[2], 0x80);
      Digits(r, h, Payload(b[3], 0x80));
      Digits(h, g, Payload(b[2], 0x80));
      Digits(g, Payload(b[0], 0xF0), Payload(b[1], 0x80));
  }

  lemma DecodeEncodedRune(r: Rune, tail: Text)
    ensures Decode(EncodeRune(r) + tail) == [r] + Decode(tail)
  {
    EncodedRuneIsChar(r, tail);
    assert (EncodeRune(r) + tail)[|EncodeRune(r)|..] == tail;
  }

  /** Decoding gives back the runes that were encoded, and goes on with what follows them. */
  lemma {:induction false} DecodeEncode(rs: seq<Rune>, tail: Text)
    ensures Decode(Encode(rs) + tail) == rs + Decode(tail)
  {
    hide EncodeRune, Decode;
    if rs == [] {
      assert Encode(rs) + tail == tail;
      assert rs + Decode(tail) == Decode(tail);
    } else {
      var rest := Encode(rs[1..]) + tail;
      calc {
        Decode(Encode(rs) + tail);
        { assert Encode(rs) + tail == EncodeRune(rs[0]) + rest; }
        Decode(EncodeRune(rs[0]) + rest);
        { DecodeEncodedRune(rs[0], rest); }
        [rs[0]] + Decode(rest);
        { DecodeEncode(rs[1..], tail); }
        [rs[0]] + (rs[1..] + Decode(tail));
        { assert rs == [rs[0]] + rs[1..]; }
        rs + Decode(tail);
      }
    }
  }

  lemma {:induction false} EncodeIsValid(rs: seq<Rune>)
    ensures Valid(Encode(rs))
  {
    if rs != [] {
      var e := EncodeRune(rs[0]);
      EncodedRuneIsChar(rs[0], Encode(rs[1..]));
      assert (e + Encode(rs[1..]))[|e|..] == Encode(rs[1..]);
      EncodeIsValid(rs[1..]);
    }
  }

  lemma {:induction false} EncodeDecode(b: Text)
    requires Valid(b)
    ensures Encode(Decode(b)) == b
  {
    if b != [] {
      CharIsEncodedRune(b);
      EncodeDecode(b[CharLen(b[0])..]);
      assert Decode(b)[1..] == Decode(b[CharLen(b[0])..]);
    }
  }

  /** The well-formed texts are exactly those that decoding and encoding leave alone. */
  lemma ValidIffRoundTrip(b: Text)
    ensures Valid(b) <==> Encode(Decode(b)) == b
  {
    if Valid(b) {
      EncodeDecode(b);
    }
    EncodeIsValid(Decode(b));
  }

  lemma EncodeInjective(rs: seq<Rune>, rs': seq<Rune>)
    requires Encode(rs) == Encode(rs')
    ensures rs == rs'
  {
    DecodeEncode(rs, []);
    DecodeEncode(rs', []);
    assert Encode(rs) + [] == Encode(rs) && rs + Decode([]) == rs && rs' + Decode([]) == rs';
  }

  lemma {:induction false} EncodeConcat(rs: seq<Rune>, rs': seq<Rune>)
    ensures Encode(rs + rs') == Encode(rs) + Encode(rs')
  {
    if rs == [] {
      assert rs + rs' == rs';
    } else {
      assert (rs + rs')[1..] == rs[1..] + rs';
      EncodeConcat(rs[1..], rs');
    }
  }

  /** The end of a well-formed text is always a decoding boundary. */
  lemma DecodeAfterValid(b: Text, tail: Text)
    requires Valid(b)
    ensures Decode(b + tail) == Decode(b) + Decode(tail)
  {
    EncodeDecode(b);
    DecodeEncode(Decode(b), tail);
  }

  lemma ValidConcat(b: Text, tail: Text)
    requires Valid(b) && Valid(tail)
    ensures Valid(b + tail)
  {
    DecodeAfterValid(b, tail);
    EncodeConcat(Decode(b), Decode(tail));
    ValidIffRoundTrip(b);
    ValidIffRoundTrip(tail);
    ValidIffRoundTrip(b + tail);
  }
}
