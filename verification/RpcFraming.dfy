/**
 The framing of the plugin bridge: a 4-byte big-endian length and then the body.
 */
module RpcFraming {
  import opened Utf8

  type Bytes = seq<Byte>

  const MAX_FRAME_BYTES: nat := 64 * 0x10_0000

  datatype ReadError = Eof | UnexpectedEof | FrameTooLarge

  datatype Read<T> = Got(value: T) | Failed(error: ReadError)

  // ---------------------------------------------------------------------------
  // The header
  // ---------------------------------------------------------------------------

  type Uint32 = n: int | 0 <= n < 0x1_0000_0000

  function Header(n: Uint32): (h: Bytes)
    ensures |h| == 4
  {
    [n / 0x100_0000, n / 0x1_0000 % 0x100, n / 0x100 % 0x100, n % 0x100]
  }

  function HeaderValue(h: Bytes): Uint32
    requires |h| == 4
  {
    h[0] as int * 0x100_0000 + h[1] as int * 0x1_0000 + h[2] as int * 0x100 + h[3] as int
  }

  lemma Digits(n: nat, hi: nat, lo: nat)
    requires lo < 0x100
    ensures n == hi * 0x100 + lo <==> hi == n / 0x100 && lo == n % 0x100
  {
  }

  lemma HeaderOfValue(h: Bytes)
    requires |h| == 4
    ensures Header(HeaderValue(h)) == h
  {
    var n := HeaderValue(h);
    var hi := h[0] as int * 0x1_0000 + h[1] as int * 0x100 + h[2] as int;
    var top := h[0] as int * 0x100 + h[1] as int;
    Digits(n, hi, h[3]);
    Digits(hi, top, h[2]);
    Digits(top, h[0], h[1]);
    assert Header(n)[0] == h[0] && Header(n)[1] == h[1];
  }

  lemma ValueOfHeader(n: Uint32)
    ensures HeaderValue(Header(n)) == n
  {
    Digits(n, n / 0x100, n % 0x100);
    Digits(n / 0x100, n / 0x1_0000, n / 0x100 % 0x100);
    Digits(n / 0x1_0000, n / 0x100_0000, n / 0x1_0000 % 0x100);
  }

  /** The encoding and the decoding of the header are inverse. */
  lemma HeaderInverse(n: Uint32, h: Bytes)
    requires |h| == 4
    ensures h == Header(n) <==> n == HeaderValue(h)
  {
    hide Header, HeaderValue;
    HeaderOfValue(h);
    ValueOfHeader(n);
  }

  /** The header has its highest byte first, so headers compare byte by byte as the lengths they keep. */
  lemma HighestFirst(m: Uint32, n: Uint32)
    ensures var h, k := Header(m), Header(n);
            m < n <==>
              || h[0] < k[0]
              || (h[0] == k[0] && h[1] < k[1])
              || (h[..2] == k[..2] && h[2] < k[2])
              || (h[..3] == k[..3] && h[3] < k[3])
  {
    var h, k := Header(m), Header(n);
    HeaderInverse(m, h);
    HeaderInverse(n, k);
    hide Header;
    assert h[..2] == k[..2] <==> h[0] == k[0] && h[1] == k[1];
    assert h[..3] == k[..3] <==> h[0] == k[0] && h[1] == k[1] && h[2] == k[2];
  }

  // ---------------------------------------------------------------------------
  // Frames on the wire
  // ---------------------------------------------------------------------------

  function Frame(body: Bytes): Bytes
    requires |body| <= MAX_FRAME_BYTES
  {
    Header(|body|) + body
  }

  predicate Writable(bodies: seq<Bytes>) {
    forall b | b in bodies :: |b| <= MAX_FRAME_BYTES
  }

  function Wire(bodies: seq<Bytes>): Bytes
    requires Writable(bodies)
  {
    if bodies == [] then [] else Frame(bodies[0]) + Wire(bodies[1..])
  }

  /** Reads exactly `n` bytes. Only a read that got none at all ends cleanly. */
  function Full(data: Bytes, n: nat): Read<Bytes> {
    if n <= |data| then Got(data[..n])
    else if data == [] then Failed(Eof)
    else Failed(UnexpectedEof)
  }

  /** The next frame, and the bytes after it. */
  function NextFrame(data: Bytes): Read<(Bytes, Bytes)> {
    match Full(data, 4)
    case Failed(e) => Failed(e)
    case Got(header) =>
      var n := HeaderValue(header);
      if n > MAX_FRAME_BYTES then Failed(FrameTooLarge)
      else match Full(data[4..], n)
        case Failed(e) => Failed(e)
        case Got(body) => Got((body, data[4 + n..]))
  }

  /** Reading frames until the first error. */
  function ReadAll(data: Bytes): (seq<Bytes>, ReadError)
    decreases |data|
  {
    match NextFrame(data)
    case Failed(e) => ([], e)
    case Got((body, rest)) =>
      var (bodies, e) := ReadAll(rest);
      ([body] + bodies, e)
  }

  /** What is read is what was framed: a frame can be read off `data` exactly when `data` starts with it. */
  lemma NextFrameIff(data: Bytes, body: Bytes, rest: Bytes)
    ensures NextFrame(data) == Got((body, rest)) <==> |body| <= MAX_FRAME_BYTES && data == Frame(body) + rest
  {
    if |data| >= 4 {
      HeaderInverse(HeaderValue(data[..4]), data[..4]);
    }
    if |body| <= MAX_FRAME_BYTES && data == Frame(body) + rest {
      assert data[..4] == Header(|body|) && data[4..] == body + rest && data[4..][..|body|] == body;
      HeaderInverse(|body|, data[..4]);
      assert data[4 + |body|..] == rest;
    }
    if NextFrame(data) == Got((body, rest)) {
      assert data == data[..4] + (data[4..][..|body|] + data[4 + |body|..]);
    }
  }

  lemma ReadFirst(body: Bytes, rest: Bytes)
    requires |body| <= MAX_FRAME_BYTES
    ensures ReadAll(Frame(body) + rest) == ([body] + ReadAll(rest).0, ReadAll(rest).1)
  {
    hide Frame, NextFrame;
    NextFrameIff(Frame(body) + rest, body, rest);
  }

  /** The writer's frames, read back, are exactly the bodies, and every byte is consumed. */
  lemma {:induction false} ReadBack(bodies: seq<Bytes>)
    requires Writable(bodies)
    ensures ReadAll(Wire(bodies)) == (bodies, Eof)
  {
    hide Frame, NextFrame, ReadAll;
    if bodies == [] {
      EmptyStream();
    } else {
      ReadBack(bodies[1..]);
      ReadFirst(bodies[0], Wire(bodies[1..]));
      assert [bodies[0]] + bodies[1..] == bodies;
    }
  }

  // ---------------------------------------------------------------------------
  // Truncation
  // ---------------------------------------------------------------------------

  /** How many of the frames lie before `cut`. */
  function WholeFrames(bodies: seq<Bytes>, cut: nat): (k: nat)
    requires Writable(bodies)
    ensures k <= |bodies|
  {
    if bodies == [] || cut < |Frame(bodies[0])| then 0
    else 1 + WholeFrames(bodies[1..], cut - |Frame(bodies[0])|)
  }

  lemma WireOfPrefix(bodies: seq<Bytes>, k: nat)
    requires Writable(bodies) && 0 < k <= |bodies|
    ensures Wire(bodies[..k]) == Frame(bodies[0]) + Wire(bodies[1..][..k - 1])
  {
    assert bodies[..k][1..] == bodies[1..][..k - 1];
  }

  lemma CutFrame(body: Bytes, wire: Bytes, cut: nat)
    requires |body| <= MAX_FRAME_BYTES && cut < |Frame(body)| && cut <= |wire|
    requires Frame(body) <= wire
    ensures ReadAll(wire[..cut]) == ([], if cut == 0 || cut == 4 then Eof else UnexpectedEof)
  {
    var data := wire[..cut];
    if cut >= 4 {
      assert data[..4] == Frame(body)[..4] == Header(|body|);
      HeaderInverse(|body|, data[..4]);
    }
  }

  /**
   However the stream is cut, the reader gets the whole frames before the cut and no other.
   It ends with a clean EOF exactly when the cut is between two frames or between a header
   and its body: the latter truncation looks like an orderly close.
   */
  lemma {:induction false} ReadTruncated(bodies: seq<Bytes>, cut: nat)
    requires Writable(bodies) && cut <= |Wire(bodies)|
    ensures var k := WholeFrames(bodies, cut);
            && |Wire(bodies[..k])| <= cut
            && (k < |bodies| ==> cut < |Wire(bodies[..k])| + |Frame(bodies[k])|)
            && var into := cut - |Wire(bodies[..k])|;
               ReadAll(Wire(bodies)[..cut]) == (bodies[..k], if into == 0 || into == 4 then Eof else UnexpectedEof)
  {
    hide Frame, NextFrame, ReadAll;
    if bodies == [] {
      EmptyStream();
    } else if cut < |Frame(bodies[0])| {
      CutFrame(bodies[0], Wire(bodies), cut);
      assert Wire(bodies[..0]) == [];
    } else {
      var first := |Frame(bodies[0])|;
      var rest := Wire(bodies[1..])[..cut - first];
      assert Wire(bodies)[..cut] == Frame(bodies[0]) + rest;
      ReadFirst(bodies[0], rest);
      ReadTruncated(bodies[1..], cut - first);
      var k := WholeFrames(bodies, cut);
      WireOfPrefix(bodies, k);
      assert bodies[..k] == [bodies[0]] + bodies[1..][..k - 1];
    }
  }

  lemma EmptyStream()
    ensures ReadAll([]) == ([], Eof)
  {
  }

  // ---------------------------------------------------------------------------
  // The stream as it is written and read
  // ---------------------------------------------------------------------------

  // ---------------------------------------------------------------------------
  // After a write that failed half way
  // ---------------------------------------------------------------------------

  /**
   The connection stays in use after a failed write, so whatever is written next completes the
   broken frame. With the header written, `k` bytes in all, the reader takes for the body its
   beginning and as much of what follows as is missing, and goes on in the middle of that.
   */
  lemma BrokenBody(body: Bytes, k: nat, rest: Bytes)
    requires |body| <= MAX_FRAME_BYTES && 4 <= k < |Frame(body)|
    ensures var missing := |Frame(body)| - k;
            NextFrame(Frame(body)[..k] + rest) ==
            if missing <= |rest| then Got((body[..k - 4] + rest[..missing], rest[missing..]))
            else Failed(if k == 4 && rest == [] then Eof else UnexpectedEof)
  {
    ValueOfHeader(|body|);
    hide Header, HeaderValue;
    var data := Frame(body)[..k] + rest;
    assert data[..4] == Header(|body|);
    assert data[4..] == body[..k - 4] + rest;
    var missing := |Frame(body)| - k;
    if missing <= |rest| {
      assert (body[..k - 4] + rest)[..|body|] == body[..k - 4] + rest[..missing];
      assert (body[..k - 4] + rest)[|body|..] == rest[missing..];
    }
  }

  /** With only part of the header written, the next header is read shifted. */
  lemma BrokenHeader(body: Bytes, k: nat, rest: Bytes)
    requires |body| <= MAX_FRAME_BYTES && 0 < k < 4 && 4 - k <= |rest|
    ensures NextFrame(Frame(body)[..k] + rest) ==
            NextFrame(Header(HeaderValue(Header(|body|)[..k] + rest[..4 - k])) + rest[4 - k..])
  {
    var data := Frame(body)[..k] + rest;
    var header := Header(|body|)[..k] + rest[..4 - k];
    HeaderOfValue(header);
    hide Header, HeaderValue, NextFrame;
    assert data == header + rest[4 - k..];
  }

  /** A stream; it takes `room` more bytes before a write fails. */
  class Pipe {
    var data: Bytes
    var room: nat

    constructor (capacity: nat)
      ensures data == [] && room == capacity
    {
      data, room := [], capacity;
    }

    /** Writes all of `bytes`, or what there is room for and fails. */
    method Write(bytes: Bytes) returns (ok: bool)
      modifies this
      ensures ok <==> |bytes| <= old(room)
      ensures data == old(data) + First(bytes, old(room))
      ensures room == old(room) - |First(bytes, old(room))|
    {
      ok := |bytes| <= room;
      var part := First(bytes, room);
      data, room := data + part, room - |part|;
    }

    /** Takes exactly `n` bytes; a short stream is drained. */
    method ReadFull(n: nat) returns (r: Read<Bytes>)
      modifies this`data
      ensures r == Full(old(data), n)
      ensures data == if n <= |old(data)| then old(data)[n..] else []
    {
      if n <= |data| {
        r, data := Got(data[..n]), data[n..];
      } else {
        r, data := Failed(if data == [] then Eof else UnexpectedEof), [];
      }
    }
  }

  method PutUint32(h: array<Byte>, n: Uint32)
    requires h.Length == 4
    modifies h
    ensures h[..] == Header(n)
  {
    h[0] := n / 0x100_0000;
    h[1] := n / 0x1_0000 % 0x100;
    h[2] := n / 0x100 % 0x100;
    h[3] := n % 0x100;
  }

  /** The first `n` of some bytes, or all if there are fewer. */
  function First(bytes: Bytes, n: nat): (part: Bytes)
    ensures |part| <= n && part <= bytes
  {
    if |bytes| <= n then bytes else bytes[..n]
  }

  /**
   A body over the limit is refused and leaves the stream alone. A write that fails, of the
   header or of the body, leaves the beginning of the frame there.
   */
  method WriteFrame(w: Pipe, body: Bytes) returns (ok: bool)
    modifies w
    ensures ok <==> |body| <= MAX_FRAME_BYTES && |Frame(body)| <= old(w.room)
    ensures |body| > MAX_FRAME_BYTES ==> w.data == old(w.data) && w.room == old(w.room)
    ensures |body| <= MAX_FRAME_BYTES ==> w.data == old(w.data) + First(Frame(body), old(w.room))
  {
    if |body| > MAX_FRAME_BYTES {
      return false;
    }
    var header := new Byte[4];
    PutUint32(header, |body|);
    ok := w.Write(header[..]);
    if ok {
      ok := w.Write(body);
    }
  }

  method ReadFrame(r: Pipe) returns (frame: Read<Bytes>)
    modifies r
    ensures match NextFrame(old(r.data))
            case Got((body, rest)) => frame == Got(body) && r.data == rest
            case Failed(e) => frame == Failed(e)
  {
    hide HeaderValue;
    var header := r.ReadFull(4);
    if header.Failed? {
      return header;
    }
    var n := HeaderValue(header.value);
    if n > MAX_FRAME_BYTES {
      return Failed(FrameTooLarge);
    }
    frame := r.ReadFull(n);
    assert frame.Got? ==> old(r.data)[4..][n..] == old(r.data)[4 + n..];
  }
}
