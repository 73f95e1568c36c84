/** The 8-byte little-endian frame header and the walk over a buffer of frames (clients/js/frames.js). */
module Frames {
  import opened Bytes

  const HEADER_BYTES := 8

  datatype Header = Header(kind: byte, flags: byte, channel: u16, seq_: u16, len: u16)

  datatype Frame = Frame(header: Header, payload: seq<byte>)

  function HeaderBytes(h: Header): (s: seq<byte>)
    ensures |s| == HEADER_BYTES
  {
    [h.kind, h.flags] + LE16(h.channel) + LE16(h.seq_) + LE16(h.len)
  }

  /** `encodeFrame`: the 16-bit length field keeps the low bits of the payload's length. */
  function EncodeFrame(kind: byte, flags: byte, channel: u16, seq_: u16, payload: seq<byte>): (s: seq<byte>)
    ensures |s| == HEADER_BYTES + |payload|
  {
    HeaderBytes(Header(kind, flags, channel, seq_, |payload| % 0x1_0000)) + payload
  }

  function DecodeHeader(buf: seq<byte>, off: nat): Option<Header>
    requires off <= |buf|
  {
    if |buf| - off < HEADER_BYTES then
      None
    else
      var b := buf[off..off + HEADER_BYTES];
      Some(Header(b[0], b[1], U16(b[2..4]), U16(b[4..6]), U16(b[6..8])))
  }

  lemma HeaderRoundTrip(h: Header, tail: seq<byte>)
    ensures DecodeHeader(HeaderBytes(h) + tail, 0) == Some(h)
  {
    var s := HeaderBytes(h);
    assert (s + tail)[0..HEADER_BYTES] == s;
    assert s[2..4] == LE16(h.channel) && s[4..6] == LE16(h.seq_) && s[6..8] == LE16(h.len);
    LE16RoundTrip(h.channel);
    LE16RoundTrip(h.seq_);
    LE16RoundTrip(h.len);
  }

  /** A frame whose header tells its payload's length. */
  predicate Whole(f: Frame) {
    f.header.len == |f.payload|
  }

  function FrameBytes(f: Frame): seq<byte> {
    HeaderBytes(f.header) + f.payload
  }

  lemma EncodeFrameIs(kind: byte, flags: byte, channel: u16, seq_: u16, payload: seq<byte>)
    requires |payload| < 0x1_0000
    ensures var f := Frame(Header(kind, flags, channel, seq_, |payload|), payload);
            Whole(f) && EncodeFrame(kind, flags, channel, seq_, payload) == FrameBytes(f)
  {
  }

  /** The frames at the front of `buf`, up to the first that does not fit. */
  function Parsed(buf: seq<byte>): seq<Frame>
    decreases |buf|
  {
    match DecodeHeader(buf, 0)
    case None => []
    case Some(h) =>
      if HEADER_BYTES + h.len > |buf| then []
      else [Frame(h, buf[HEADER_BYTES..HEADER_BYTES + h.len])] + Parsed(buf[HEADER_BYTES + h.len..])
  }

  function AllBytes(fs: seq<Frame>): seq<byte> {
    if fs == [] then [] else FrameBytes(fs[0]) + AllBytes(fs[1..])
  }

  lemma ParsedOne(f: Frame, tail: seq<byte>)
    requires Whole(f)
    ensures Parsed(FrameBytes(f) + tail) == [f] + Parsed(tail)
  {
    var buf := FrameBytes(f) + tail;
    assert buf == HeaderBytes(f.header) + (f.payload + tail);
    HeaderRoundTrip(f.header, f.payload + tail);
    var end := HEADER_BYTES + f.header.len;
    assert buf[HEADER_BYTES..end] == f.payload;
    assert buf[end..] == tail;
  }

  /** A buffer of whole frames parses back to exactly them; what follows is parsed on its own. */
  lemma {:induction false} ParsedAll(fs: seq<Frame>, tail: seq<byte>)
    requires forall f :: f in fs ==> Whole(f)
    ensures Parsed(AllBytes(fs) + tail) == fs + Parsed(tail)
  {
    if fs == [] {
      NothingAfter(tail);
      NothingAfter(Parsed(tail));
    } else {
      var head, more := fs[0], fs[1..];
      ParsedAll(more, tail);
      Rebracket(FrameBytes(head), AllBytes(more), tail);
      ParsedOne(head, AllBytes(more) + tail);
      Rebracket([head], more, Parsed(tail));
      assert [head] + more == fs;
    }
  }

  /** A frame cut short ends the walk: nothing is made of it. */
  lemma Truncated(f: Frame, n: nat)
    requires Whole(f) && n < |FrameBytes(f)|
    ensures Parsed(FrameBytes(f)[..n]) == []
  {
    var cut := FrameBytes(f)[..n];
    if n >= HEADER_BYTES {
      assert cut == HeaderBytes(f.header) + f.payload[..n - HEADER_BYTES];
      HeaderRoundTrip(f.header, f.payload[..n - HEADER_BYTES]);
    }
  }

  /** What the walk returns is what the buffer starts with: nothing is invented, skipped or reordered. */
  lemma {:induction false} ParsedIsPrefix(buf: seq<byte>)
    ensures forall f :: f in Parsed(buf) ==> Whole(f)
    ensures AllBytes(Parsed(buf)) <= buf
    decreases |buf|
  {
    var fs := Parsed(buf);
    if fs != [] {
      var h := fs[0].header;
      var end := HEADER_BYTES + h.len;
      ParsedIsPrefix(buf[end..]);
      assert fs[1..] == Parsed(buf[end..]);
      HeaderFromBytes(buf);
      assert buf[..HEADER_BYTES] + buf[HEADER_BYTES..end] == buf[..end];
    }
  }

  lemma HeaderFromBytes(buf: seq<byte>)
    requires |buf| >= HEADER_BYTES
    ensures HeaderBytes(DecodeHeader(buf, 0).value) == buf[..HEADER_BYTES]
  {
    var b := buf[0..HEADER_BYTES];
    U16RoundTrip(b[2..4]);
    U16RoundTrip(b[4..6]);
    U16RoundTrip(b[6..8]);
    assert b == [b[0], b[1]] + b[2..4] + b[4..6] + b[6..8];
  }

  lemma HeaderAt(buf: seq<byte>, off: nat)
    requires off <= |buf|
    ensures DecodeHeader(buf, off) == DecodeHeader(buf[off..], 0)
  {
    if |buf| - off >= HEADER_BYTES {
      assert buf[off..][0..HEADER_BYTES] == buf[off..off + HEADER_BYTES];
    }
  }

  method ParseFrames(buf: seq<byte>) returns (out: seq<Frame>)
    ensures out == Parsed(buf)
  {
    out := [];
    var off := 0;
    assert buf[off..] == buf;
    while off + HEADER_BYTES <= |buf|
      invariant 0 <= off <= |buf|
      invariant Parsed(buf) == out + Parsed(buf[off..])
      decreases |buf| - off
    {
      HeaderAt(buf, off);
      var header := DecodeHeader(buf, off).value;
      var start := off + HEADER_BYTES;
      var end := start + header.len;
      ghost var tail := buf[off..];
      if end > |buf| {
        assert Parsed(tail) == [];
        break;
      }
      assert tail[HEADER_BYTES..HEADER_BYTES + header.len] == buf[start..end];
      assert tail[HEADER_BYTES + header.len..] == buf[end..];
      out := out + [Frame(header, buf[start..end])];
      off := end;
    }
  }

  // ---- byte by byte -----------------------------------------------------------------------------

  /** Kind, flags, channel, sequence number and length, each number low byte first. */
  lemma HeaderLayout(h: Header)
    ensures HeaderBytes(h) == [h.kind, h.flags, h.channel % 256, h.channel / 256, h.seq_ % 256, h.seq_ / 256, h.len % 256, h.len / 256]
  {
  }

  lemma FieldsLayout(buf: seq<byte>)
    requires |buf| >= 8
    ensures DecodeHeader(buf, 0) == Some(Header(buf[0], buf[1], Pair(buf, 2), Pair(buf, 4), Pair(buf, 6)))
  {
  }

  /** A frame is its header and its payload; the walk reads the first frame of a buffer from these bytes. */
  lemma FrameLayout(buf: seq<byte>)
    ensures Parsed(buf) != [] <==> |buf| >= 8 && |buf| >= 8 + Pair(buf, 6)
    ensures Parsed(buf) != [] ==>
              && Parsed(buf)[0].header == Header(buf[0], buf[1], Pair(buf, 2), Pair(buf, 4), Pair(buf, 6))
              && Parsed(buf)[0].payload == buf[8..8 + Pair(buf, 6)]
              && Parsed(buf)[1..] == Parsed(buf[8 + Pair(buf, 6)..])
  {
    hide Pair, DecodeHeader;
    if |buf| >= 8 {
      FieldsLayout(buf);
    } else {
      assert DecodeHeader(buf, 0).None? by { ShortHeader(buf); }
    }
  }

  lemma ShortHeader(buf: seq<byte>)
    requires |buf| < 8
    ensures DecodeHeader(buf, 0).None?
  {
  }

  /** Two bytes, the low one first. */
  function Pair(buf: seq<byte>, at: nat): u16
    requires at + 2 <= |buf|
  {
    var low: int, high: int := buf[at], buf[at + 1];
    low + 256 * high
  }
}
