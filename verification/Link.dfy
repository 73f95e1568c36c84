/** The serial pipe: frames out as delimited COBS chunks, and the receiver that finds them again (clients/provision/link.js). */
module Link {
  import opened Bytes
  import opened Cobs
  import opened Frames

  const ESTOP_BYTES := 12
  const MAX_FRAME := 512
  // The longest COBS body one MAX_FRAME frame encodes to.
  const MAX_CHUNK := MAX_FRAME + MAX_FRAME / FULL_RUN + 1

  function SerialFrame(frame: seq<byte>): seq<byte> {
    [0] + Encoded(frame) + [0]
  }

  predicate IsEstopShaped(f: seq<byte>) {
    |f| == ESTOP_BYTES && f[..4] == [0xe5, 0xe5, 0xe5, 0xe5]
  }

  /** A whole frame: a 12-byte ESTOP, or a header whose length covers the rest. */
  predicate FrameShaped(f: seq<byte>) {
    IsEstopShaped(f) || (|f| >= HEADER_BYTES && U16(f[6..8]) == |f| - HEADER_BYTES)
  }

  lemma WholeFrameIsShaped(f: Frame)
    requires Whole(f)
    ensures FrameShaped(FrameBytes(f))
  {
    assert FrameBytes(f)[6..8] == LE16(f.header.len);
    LE16RoundTrip(f.header.len);
  }

  // ---- the simple form: split on the delimiter, decode, keep whole frames --------

  datatype Pieces = Pieces(chunks: seq<seq<byte>>, tail: seq<byte>)

  /** The chunks a stream completes, and what it leaves open; `open` is what came before it. */
  function Split(open: seq<byte>, stream: seq<byte>): Pieces
    decreases |stream|
  {
    if stream == [] then
      Pieces([], open)
    else if stream[0] == 0 then
      var more := Split([], stream[1..]);
      Pieces([open] + more.chunks, more.tail)
    else
      Split(open + [stream[0]], stream[1..])
  }

  /** The frame one delimited chunk carries, if it carries exactly one. */
  function ChunkFrame(chunk: seq<byte>): Option<seq<byte>> {
    var f := Decoded(chunk);
    if |chunk| <= MAX_CHUNK && f.Some? && FrameShaped(f.value) then f else None
  }

  /**
   * A chunk carries a frame exactly if it is no longer than the receiver's buffer and decodes to 12 bytes
   * that begin with four e5, or to a header whose length covers the rest.
   */
  lemma CarriesFrame(chunk: seq<byte>, f: seq<byte>)
    ensures ChunkFrame(chunk) == Some(f)
       <==> |chunk| <= 515 && Decoded(chunk) == Some(f)
            && ((|f| == 12 && f[0] == 0xe5 && f[1] == 0xe5 && f[2] == 0xe5 && f[3] == 0xe5)
                || (|f| >= 8 && f[6] as int + 256 * f[7] as int == |f| - 8))
  {
    if |f| >= 8 {
      assert f[6..8] == [f[6], f[7]];
    }
    if |f| == 12 {
      assert f[..4] == [f[0], f[1], f[2], f[3]];
    }
  }

  /** The frames of a list of chunks, in order; an empty chunk stands between two delimiters. */
  function Delivered(chunks: seq<seq<byte>>): seq<seq<byte>> {
    if chunks == [] then []
    else
      var f := ChunkFrame(chunks[0]);
      (if chunks[0] != [] && f.Some? then [f.value] else []) + Delivered(chunks[1..])
  }

  /** How many chunks were counted as dropped. */
  function Discarded(chunks: seq<seq<byte>>): nat {
    if chunks == [] then 0
    else (if chunks[0] != [] && ChunkFrame(chunks[0]).None? then 1 else 0) + Discarded(chunks[1..])
  }

  lemma {:induction false} DeliveredConcat(a: seq<seq<byte>>, b: seq<seq<byte>>)
    ensures Delivered(a + b) == Delivered(a) + Delivered(b)
    ensures Discarded(a + b) == Discarded(a) + Discarded(b)
  {
    if a == [] {
      NothingAfter(b);
      NothingAfter(Delivered(b));
    } else {
      var f := ChunkFrame(a[0]);
      assert (a + b)[0] == a[0] && (a + b)[1..] == a[1..] + b;
      DeliveredConcat(a[1..], b);
      Rebracket(if a[0] != [] && f.Some? then [f.value] else [], Delivered(a[1..]), Delivered(b));
    }
  }

  /** Splitting a stream in two places gives the same chunks. */
  lemma {:induction false} SplitConcat(open: seq<byte>, a: seq<byte>, b: seq<byte>)
    ensures var first := Split(open, a);
            var second := Split(first.tail, b);
            Split(open, a + b) == Pieces(first.chunks + second.chunks, second.tail)
    decreases |a|
  {
    if a == [] {
      NothingAfter(b);
      NothingAfter(Split(open, b).chunks);
    } else {
      assert (a + b)[0] == a[0] && (a + b)[1..] == a[1..] + b;
      if a[0] == 0 {
        SplitConcat([], a[1..], b);
        var first := Split([], a[1..]);
        Rebracket([open], first.chunks, Split(first.tail, b).chunks);
      } else {
        SplitConcat(open + [a[0]], a[1..], b);
      }
    }
  }

  /** A zero-free stretch only grows the open chunk. */
  lemma {:induction false} SplitZeroFree(open: seq<byte>, s: seq<byte>)
    requires 0 !in s
    ensures Split(open, s) == Pieces([], open + s)
    decreases |s|
  {
    if s == [] {
      NothingAfter(open);
    } else {
      SplitZeroFree(open + [s[0]], s[1..]);
      Rebracket(open, [s[0]], s[1..]);
      assert [s[0]] + s[1..] == s;
    }
  }

  // ---- what is sent is what is delivered -------------------------------------------

  /** A serial frame closes whatever was open before it, delivers its frame and leaves nothing open. */
  lemma SerialFrameSplits(open: seq<byte>, f: seq<byte>)
    ensures Split(open, SerialFrame(f)) == Pieces([open, Encoded(f)], [])
  {
    var body := Encoded(f);
    assert Split(open, [0]) == Pieces([open], []);
    NoZero(f);
    SplitZeroFree([], body);
    NothingAfter(body);
    SplitConcat(open, [0], body);
    assert Split(body, [0]) == Pieces([body], []);
    SplitConcat(open, [0] + body, [0]);
    assert [open] + [] + [body] == [open, body];
  }

  predicate Sendable(f: seq<byte>) {
    |f| <= MAX_FRAME && FrameShaped(f)
  }

  lemma SendableIsDelivered(f: seq<byte>)
    requires Sendable(f)
    ensures Encoded(f) != [] && ChunkFrame(Encoded(f)) == Some(f)
  {
    RoundTrip(f);
    LengthBound(f);
  }

  datatype Item = Item(noise: seq<byte>, frame: seq<byte>)

  /** A stream of serial frames with arbitrary bytes in front of each and at the end. */
  function Stream(items: seq<Item>, last: seq<byte>): seq<byte> {
    if items == [] then last else items[0].noise + (SerialFrame(items[0].frame) + Stream(items[1..], last))
  }

  /** What arbitrary bytes deliver on their own, once a delimiter closes them. */
  function NoiseFrames(open: seq<byte>, noise: seq<byte>): seq<seq<byte>> {
    Delivered(Split(open, noise).chunks + [Split(open, noise).tail])
  }

  function Expected(open: seq<byte>, items: seq<Item>, last: seq<byte>): seq<seq<byte>>
    decreases |items|
  {
    if items == [] then
      Delivered(Split(open, last).chunks)
    else
      NoiseFrames(open, items[0].noise) + [items[0].frame] + Expected([], items[1..], last)
  }

  /** Every frame is delivered, in order, whatever stands around it; the noise adds only its own frames. */
  lemma {:induction false} StreamDelivers(open: seq<byte>, items: seq<Item>, last: seq<byte>)
    requires forall it :: it in items ==> Sendable(it.frame)
    ensures Delivered(Split(open, Stream(items, last)).chunks) == Expected(open, items, last)
    decreases |items|
  {
    if items != [] {
      var noise, frame := items[0].noise, items[0].frame;
      var rest := Stream(items[1..], last);
      var before := Split(open, noise);
      assert items[0] in items;
      SplitConcat(open, noise, SerialFrame(frame) + rest);
      SplitConcat(before.tail, SerialFrame(frame), rest);
      SerialFrameSplits(before.tail, frame);
      StreamDelivers([], items[1..], last);
      SendableIsDelivered(frame);
      var after := Split([], rest).chunks;
      Reorder(before.chunks, before.tail, Encoded(frame), after);
      DeliveredConcat(before.chunks + [before.tail], [Encoded(frame)] + after);
      DeliveredFirst(frame, after);
      Rebracket(NoiseFrames(open, noise), [frame], Delivered(after));
    }
  }

  lemma Reorder<T>(a: seq<T>, b: T, c: T, d: seq<T>)
    ensures a + ([b, c] + d) == (a + [b]) + ([c] + d)
  {
  }

  lemma DeliveredFirst(frame: seq<byte>, after: seq<seq<byte>>)
    requires Sendable(frame)
    ensures Delivered([Encoded(frame)] + after) == [frame] + Delivered(after)
  {
    SendableIsDelivered(frame);
    assert ([Encoded(frame)] + after)[1..] == after;
  }

  function FramesOf(items: seq<Item>): seq<seq<byte>> {
    if items == [] then [] else [items[0].frame] + FramesOf(items[1..])
  }

  /** Bytes that hold no frame-shaped chunk, so that a receiver makes nothing of them. */
  predicate Silent(noise: seq<byte>) {
    NoiseFrames([], noise) == []
  }

  /** With silent noise a fresh receiver delivers exactly the frames that were sent. */
  lemma {:induction false} SilentStream(items: seq<Item>, last: seq<byte>)
    requires forall it :: it in items ==> Sendable(it.frame) && Silent(it.noise)
    requires Silent(last)
    ensures Delivered(Split([], Stream(items, last)).chunks) == FramesOf(items)
  {
    StreamDelivers([], items, last);
    ExpectedSilent(items, last);
  }

  lemma {:induction false} ExpectedSilent(items: seq<Item>, last: seq<byte>)
    requires forall it :: it in items ==> Sendable(it.frame) && Silent(it.noise)
    requires Silent(last)
    ensures Expected([], items, last) == FramesOf(items)
  {
    if items == [] {
      DeliveredConcat(Split([], last).chunks, [Split([], last).tail]);
    } else {
      assert items[0] in items;
      NothingAfter([items[0].frame]);
      ExpectedSilent(items[1..], last);
    }
  }

  // ---- the receiver ------------------------------------------------------------------

  /** Bytes in, whole frames out, everything else counted. */
  class Deframer {
    ghost var open: seq<byte> // every byte since the last delimiter
    const buf: array<byte>
    var len: nat
    var over: bool
    var dropped: nat

    ghost predicate Valid()
      reads this, buf
    {
      && buf.Length == MAX_CHUNK && len <= MAX_CHUNK
      && over == (|open| > MAX_CHUNK)
      && (over ==> len > 0)
      && (!over ==> len == |open| && buf[..len] == open)
    }

    constructor ()
      ensures Valid() && fresh(buf) && open == [] && dropped == 0
    {
      open := [];
      buf := new byte[MAX_CHUNK];
      len := 0;
      over := false;
      dropped := 0;
    }

    method Push(bytes: seq<byte>) returns (frames: seq<seq<byte>>)
      requires Valid()
      modifies this, buf
      ensures Valid()
      ensures var p := Split(old(open), bytes);
              frames == Delivered(p.chunks) && open == p.tail && dropped == old(dropped) + Discarded(p.chunks)
    {
      frames := [];
      var i := 0;
      ghost var chunks: seq<seq<byte>>, rest := [], bytes;
      NothingAfter(Split(open, bytes).chunks);
      while i < |bytes|
        invariant 0 <= i <= |bytes| && rest == bytes[i..] && Valid()
        invariant Split(old(open), bytes) == Pieces(chunks + Split(open, rest).chunks, Split(open, rest).tail)
        invariant frames == Delivered(chunks) && dropped == old(dropped) + Discarded(chunks)
      {
        var b := bytes[i];
        assert rest[0] == b && rest[1..] == bytes[i + 1..];
        rest := rest[1..];
        if b == 0 {
          Rebracket(chunks, [open], Split([], rest).chunks);
          DeliveredConcat(chunks, [open]);
          chunks := chunks + [open];
          frames := End(frames);
        } else {
          Store(b);
        }
        i := i + 1;
      }
      NothingAfter(chunks);
    }

    /** One byte of a chunk: past MAX_CHUNK the buffer starts over and the chunk is lost. */
    method Store(b: byte)
      requires Valid()
      modifies this, buf
      ensures Valid() && open == old(open) + [b] && dropped == old(dropped)
    {
      if len == MAX_CHUNK {
        over := true;
        len := 0;
      }
      buf[len] := b;
      len := len + 1;
      open := open + [b];
    }

    /** A delimiter: the chunk is a frame, or nothing, or one more dropped. */
    method End(before: seq<seq<byte>>) returns (frames: seq<seq<byte>>)
      requires Valid()
      modifies this
      ensures Valid() && open == []
      ensures frames == before + Delivered([old(open)]) && dropped == old(dropped) + Discarded([old(open)])
    {
      frames := before;
      var n, wasOver := len, over;
      len := 0;
      over := false;
      ghost var chunk := open;
      open := [];
      if n == 0 && !wasOver {
        return; // a frame's leading delimiter after the last one's trailing one
      }
      var f: Option<seq<byte>> := None;
      if !wasOver {
        f := CobsDecode(buf[..n]);
      }
      if f.Some? && FrameShaped(f.value) {
        frames := frames + [f.value];
      } else {
        dropped := dropped + 1;
      }
    }
  }

  // ---- any cut of the stream into pushes ------------------------------------------------

  /** The reader's pump: every chunk the port hands over is pushed, in turn. */
  method PushAll(d: Deframer, parts: seq<seq<byte>>) returns (frames: seq<seq<byte>>)
    requires d.Valid()
    modifies d, d.buf
    ensures d.Valid()
    ensures var p := Split(old(d.open), Joined(parts)); frames == Delivered(p.chunks) && d.open == p.tail
  {
    frames := [];
    var i := 0;
    ghost var chunks: seq<seq<byte>>, rest := [], parts;
    NothingAfter(Split(d.open, Joined(parts)).chunks);
    while i < |parts|
      invariant 0 <= i <= |parts| && rest == parts[i..] && d.Valid()
      invariant Split(old(d.open), Joined(parts))
             == Pieces(chunks + Split(d.open, Joined(rest)).chunks, Split(d.open, Joined(rest)).tail)
      invariant frames == Delivered(chunks)
    {
      assert rest[0] == parts[i] && rest[1..] == parts[i + 1..];
      ghost var now := Split(d.open, parts[i]);
      SplitConcat(d.open, parts[i], Joined(rest[1..]));
      Rebracket(chunks, now.chunks, Split(now.tail, Joined(rest[1..])).chunks);
      DeliveredConcat(chunks, now.chunks);
      var more := d.Push(parts[i]);
      chunks, rest := chunks + now.chunks, rest[1..];
      frames := frames + more;
      i := i + 1;
    }
    NothingAfter(chunks);
  }

  // ---- from a client's frames to the other side's frames ----------------------------------

  /** What a client gives `encodeFrame`, and the noise that precedes it on the wire. */
  datatype Message = Message(noise: seq<byte>, kind: byte, flags: byte, channel: u16, seq_: u16, payload: seq<byte>)

  function Sent(m: Message): seq<byte> {
    EncodeFrame(m.kind, m.flags, m.channel, m.seq_, m.payload)
  }

  predicate Fits(m: Message) {
    |Sent(m)| <= MAX_FRAME && Silent(m.noise)
  }

  function Items(ms: seq<Message>): seq<Item> {
    if ms == [] then [] else [Item(ms[0].noise, Sent(ms[0]))] + Items(ms[1..])
  }

  /** The header and payload to arrive. */
  function Received(m: Message): Frame {
    Frame(Header(m.kind, m.flags, m.channel, m.seq_, |m.payload| % 0x1_0000), m.payload)
  }

  function AllReceived(ms: seq<Message>): seq<Frame> {
    if ms == [] then [] else [Received(ms[0])] + AllReceived(ms[1..])
  }

  /** Parse every delivered frame, one after the other. */
  function ParsedEach(fs: seq<seq<byte>>): seq<Frame> {
    if fs == [] then [] else Parsed(fs[0]) + ParsedEach(fs[1..])
  }

  lemma SentIs(m: Message)
    requires Fits(m)
    ensures Whole(Received(m)) && Sent(m) == FrameBytes(Received(m))
  {
    EncodeFrameIs(m.kind, m.flags, m.channel, m.seq_, m.payload);
  }

  lemma {:induction false} ItemsSendable(ms: seq<Message>)
    requires forall m :: m in ms ==> Fits(m)
    ensures forall it :: it in Items(ms) ==> Sendable(it.frame) && Silent(it.noise)
  {
    if ms != [] {
      assert ms[0] in ms;
      SentIs(ms[0]);
      WholeFrameIsShaped(Received(ms[0]));
      ItemsSendable(ms[1..]);
    }
  }

  lemma {:induction false} ParsedItems(ms: seq<Message>)
    requires forall m :: m in ms ==> Fits(m)
    ensures ParsedEach(FramesOf(Items(ms))) == AllReceived(ms)
  {
    hide EncodeFrame;
    if ms != [] {
      assert ms[0] in ms;
      ParsedItems(ms[1..]);
      var f := Received(ms[0]);
      SentIs(ms[0]);
      ParsedOne(f, []);
      NothingAfter(FrameBytes(f));
      assert Items(ms)[1..] == Items(ms[1..]);
      assert FramesOf(Items(ms))[1..] == FramesOf(Items(ms[1..]));
      assert FramesOf(Items(ms))[0] == FrameBytes(f);
      NothingAfter([f]);
    }
  }

  lemma {:induction false} ParsedEachLast(fs: seq<seq<byte>>, f: seq<byte>)
    ensures ParsedEach(fs + [f]) == ParsedEach(fs) + Parsed(f)
  {
    hide Parsed;
    if fs == [] {
      assert fs + [f] == [f] && [f][1..] == [];
      NothingAfter(Parsed(f));
    } else {
      assert (fs + [f])[0] == fs[0] && (fs + [f])[1..] == fs[1..] + [f];
      ParsedEachLast(fs[1..], f);
      Rebracket(Parsed(fs[0]), ParsedEach(fs[1..]), Parsed(f));
    }
  }

  /**
   * End to end: what is given to `encodeFrame` and sent over the serial pipe amid silent noise, read
   * back in parts cut anywhere by the deframer and `parseFrames`, is the same headers and payloads, in
   * order, and nothing else.
   */
  method EndToEnd(ghost ms: seq<Message>, ghost last: seq<byte>, parts: seq<seq<byte>>) returns (frames: seq<Frame>)
    requires forall m :: m in ms ==> Fits(m)
    requires Silent(last)
    requires Joined(parts) == Stream(Items(ms), last)
    ensures frames == AllReceived(ms)
  {
    ItemsSendable(ms);
    SilentStream(Items(ms), last);
    ParsedItems(ms);
    var d := new Deframer();
    var raw := PushAll(d, parts);
    frames := [];
    var i := 0;
    while i < |raw|
      invariant i <= |raw| && frames == ParsedEach(raw[..i])
    {
      var some := ParseFrames(raw[i]);
      ParsedEachLast(raw[..i], raw[i]);
      assert raw[..i + 1] == raw[..i] + [raw[i]];
      frames := frames + some;
      i := i + 1;
    }
    assert raw[..i] == raw;
  }
}
