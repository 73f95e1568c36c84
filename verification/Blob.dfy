/**
 * Blob transfer: the hub cuts a blob into chunks (clients/js/localhub.js) and the client puts
 * them together again (clients/js/catalog.js), whatever order and however often they arrive.
 */
module Blob {
  import opened Bytes

  const CHUNK := 192
  const HEADER := 14

  datatype Target = Target(ns: byte, storeId: byte, slot: byte)

  datatype Chunk = Chunk(target: Target, generation: u16, index: u16, count: u16, total: u32, bytes: seq<byte>)

  // ---- on the wire ---------------------------------------------------------------------------

  /** The 14-byte identity header, then the chunk's bytes. */
  function Wire(c: Chunk): (p: seq<byte>)
    ensures |p| == HEADER + |c.bytes|
  {
    [c.target.ns, c.target.storeId, c.target.slot, 0]
    + LE16(c.generation) + LE16(c.index) + LE16(c.count) + LE32(c.total) + c.bytes
  }

  /** `parseBlobChunk`. */
  function Parsed(p: seq<byte>): Option<Chunk> {
    if |p| < HEADER then None
    else
      Some(Chunk(Target(p[0], p[1], p[2]), U16(p[4..6]), U16(p[6..8]), U16(p[8..10]), U32(p[10..14]), p[HEADER..]))
  }

  lemma ParsedOfWire(c: Chunk)
    ensures Parsed(Wire(c)) == Some(c)
  {
    var p := Wire(c);
    assert p[4..6] == LE16(c.generation) && p[6..8] == LE16(c.index) && p[8..10] == LE16(c.count);
    assert p[10..14] == LE32(c.total) && p[HEADER..] == c.bytes;
    LE16RoundTrip(c.generation);
    LE16RoundTrip(c.index);
    LE16RoundTrip(c.count);
    LE32RoundTrip(c.total);
  }

  /** The header byte by byte, each number low byte first. */
  lemma WireLayout(c: Chunk)
    ensures Wire(c) == [c.target.ns, c.target.storeId, c.target.slot, 0, c.generation % 256, c.generation / 256,
                        c.index % 256, c.index / 256, c.count % 256, c.count / 256,
                        c.total % 256, c.total / 256 % 256, c.total / 65536 % 256, c.total / 16777216] + c.bytes
  {
  }

  /** Every byte of a payload but the reserved one is kept. */
  lemma WireOfParsed(p: seq<byte>)
    requires |p| >= HEADER
    ensures Wire(Parsed(p).value) == p[3 := 0]
  {
    U16RoundTrip(p[4..6]);
    U16RoundTrip(p[6..8]);
    U16RoundTrip(p[8..10]);
    U32RoundTrip(p[10..14]);
    assert p[3 := 0] == [p[0], p[1], p[2], 0] + p[4..6] + p[6..8] + p[8..10] + p[10..14] + p[HEADER..];
  }

  // ---- cutting --------------------------------------------------------------------------------

  /** `Math.max(1, Math.ceil(n / CHUNK))`. */
  function CountOf(n: nat): (c: nat)
    ensures c >= 1 && c * CHUNK >= n && (n > 0 ==> (c - 1) * CHUNK < n)
  {
    if n == 0 then 1 else (n + CHUNK - 1) / CHUNK
  }

  /** Where chunk `i` ends. */
  function End(n: nat, i: nat): (e: nat)
    ensures e <= n
  {
    if (i + 1) * CHUNK < n then (i + 1) * CHUNK else n
  }

  /** A blob whose numbers fit the header. */
  predicate Sendable(blob: seq<byte>) {
    |blob| <= 0xffff * CHUNK
  }

  lemma SendableCount(blob: seq<byte>)
    requires Sendable(blob)
    ensures CountOf(|blob|) < 0x1_0000
  {
  }

  /** Chunk `i` of a blob. */
  function Cut(target: Target, generation: u16, blob: seq<byte>, i: nat): Chunk
    requires Sendable(blob) && i < CountOf(|blob|)
  {
    SendableCount(blob);
    Chunk(target, generation, i, CountOf(|blob|), |blob|, blob[i * CHUNK..End(|blob|, i)])
  }

  /** A blob is cut every 192 bytes, an empty one into one empty chunk; each chunk tells the count and the size. */
  lemma CutLayout(target: Target, generation: u16, blob: seq<byte>, i: nat)
    requires |blob| <= 65535 * 192
    ensures Sendable(blob) && (i < CountOf(|blob|) <==> 192 * i < |blob| || i == 0)
    ensures i < CountOf(|blob|) ==>
              var h := Cut(target, generation, blob, i);
              && h.target == target && h.generation == generation && h.index == i && h.total == |blob|
              && 192 * h.count >= |blob| && (h.count == 1 || 192 * (h.count - 1) < |blob|) && h.count >= 1
              && h.bytes == blob[192 * i..if 192 * i + 192 < |blob| then 192 * i + 192 else |blob|]
  {
  }

  /** The chunks of the indices asked for that exist, in the order asked. */
  function Cuts(target: Target, generation: u16, blob: seq<byte>, want: seq<nat>): seq<Chunk>
    requires Sendable(blob)
  {
    if want == [] then []
    else
      (if want[0] < CountOf(|blob|) then [Cut(target, generation, blob, want[0])] else [])
      + Cuts(target, generation, blob, want[1..])
  }

  function Everything(n: nat): (s: seq<nat>)
    ensures |s| == n && forall i :: 0 <= i < n ==> s[i] == i
  {
    seq(n, i requires i >= 0 => i)
  }

  /** `sendBlob`: all chunks, or those wanted. */
  method SendBlob(target: Target, generation: u16, blob: seq<byte>, want: Option<seq<nat>>) returns (out: seq<seq<byte>>)
    requires Sendable(blob)
    ensures var cs := Cuts(target, generation, blob, if want.Some? then want.value else Everything(CountOf(|blob|)));
            |out| == |cs| && forall k :: 0 <= k < |cs| ==> out[k] == Wire(cs[k]) && Parsed(out[k]) == Some(cs[k])
  {
    hide Wire, Parsed, Cut;
    var n := CountOf(|blob|);
    var list := if want.Some? then want.value else Everything(n);
    SendableCount(blob);
    out := [];
    ghost var cs := [];
    assert list[0..] == list;
    var k := 0;
    while k < |list|
      invariant k <= |list| && |out| == |cs|
      invariant cs + Cuts(target, generation, blob, list[k..]) == Cuts(target, generation, blob, list)
      invariant forall j :: 0 <= j < |cs| ==> out[j] == Wire(cs[j]) && Parsed(out[j]) == Some(cs[j])
    {
      var i := list[k];
      assert list[k..][0] == i && list[k..][1..] == list[k + 1..];
      if i < n {
        var c := Cut(target, generation, blob, i);
        ParsedOfWire(c);
        Rebracket(cs, [c], Cuts(target, generation, blob, list[k + 1..]));
        out, cs := out + [Wire(c)], cs + [c];
      } else {
        NothingAfter(Cuts(target, generation, blob, list[k + 1..]));
      }
      k := k + 1;
    }
    NothingAfter(cs);
  }

  // ---- putting together ------------------------------------------------------------------------

  /** A reassembly in progress: which chunks are in, and the bytes so far. */
  datatype Rx = Off | On(target: Target, total: nat, got: seq<bool>, buf: seq<byte>)

  function Blank(n: nat): (s: seq<byte>)
    ensures |s| == n
  {
    seq(n, i => 0)
  }

  function NoneIn(n: nat): (s: seq<bool>)
    ensures |s| == n && forall i :: 0 <= i < n ==> !s[i]
  {
    seq(n, i => false)
  }

  /** `begin`: a header with no chunks, no bytes, or too many bytes is refused. */
  function Begun(max: nat, h: Chunk): Rx {
    if h.count > 0 && 0 < h.total <= max then On(h.target, h.total, NoneIn(h.count), Blank(h.total)) else Off
  }

  /** The chunk belongs to the transfer and lies within it. */
  predicate Belongs(rx: Rx, h: Chunk) {
    && rx.On? && h.target == rx.target && h.count == |rx.got| && h.index < h.count
    && h.index * CHUNK + |h.bytes| <= |rx.buf|
  }

  function Inserted(rx: Rx, h: Chunk): Rx {
    if Belongs(rx, h) then
      rx.(got := rx.got[h.index := true], buf := Overwritten(rx.buf, h.index * CHUNK, h.bytes))
    else rx
  }

  function CountTrue(s: seq<bool>): (n: nat)
    ensures n <= |s|
  {
    if s == [] then 0 else (if s[0] then 1 else 0) + CountTrue(s[1..])
  }

  predicate Complete(rx: Rx) {
    rx.On? && CountTrue(rx.got) == |rx.got|
  }

  lemma {:induction false} AllTrue(s: seq<bool>)
    ensures CountTrue(s) == |s| <==> forall i :: 0 <= i < |s| ==> s[i]
  {
    if s != [] {
      AllTrue(s[1..]);
      assert forall i :: 0 < i < |s| ==> s[i] == s[1..][i - 1];
      if CountTrue(s[1..]) != |s| - 1 {
        var k :| 0 <= k < |s[1..]| && !s[1..][k];
        assert !s[k + 1];
      }
    }
  }

  lemma {:induction false} CountSet(s: seq<bool>, i: nat)
    requires i < |s|
    ensures CountTrue(s[i := true]) == CountTrue(s) + (if s[i] then 0 else 1)
  {
    if i == 0 {
      assert s[0 := true][1..] == s[1..];
    } else {
      assert s[i := true][1..] == s[1..][i - 1 := true];
      CountSet(s[1..], i - 1);
    }
  }

  // ---- what a reassembly holds -------------------------------------------------------------------

  /** Every chunk that is in holds the blob's own bytes. */
  ghost predicate Holds(rx: Rx, target: Target, blob: seq<byte>) {
    && rx.On? && rx.target == target && rx.total == |blob| == |rx.buf| && |rx.got| == CountOf(|blob|)
    && forall i :: 0 <= i < |rx.got| && rx.got[i] ==> Agree(rx.buf, blob, i)
  }

  ghost predicate Agree(buf: seq<byte>, blob: seq<byte>, i: nat) {
    |buf| == |blob| && forall j :: i * CHUNK <= j < End(|blob|, i) ==> buf[j] == blob[j]
  }

  lemma BegunHolds(max: nat, target: Target, generation: u16, blob: seq<byte>, i: nat)
    requires Sendable(blob) && i < CountOf(|blob|) && 0 < |blob| <= max
    ensures Holds(Begun(max, Cut(target, generation, blob, i)), target, blob)
  {
  }

  /** A transfer begins, from any chunk of a blob, if and only if the blob is not empty and within the budget. */
  lemma BeginsWhen(max: nat, target: Target, generation: u16, blob: seq<byte>, i: nat)
    requires Sendable(blob) && i < CountOf(|blob|)
    ensures var h := Cut(target, generation, blob, i);
            && (Begun(max, h).On? <==> 0 < |blob| <= max)
            && (Begun(max, h).On? ==> Holds(Inserted(Begun(max, h), h), target, blob))
  {
    hide Holds, Inserted, Cut;
    CutIs(target, generation, blob, i);
    if 0 < |blob| <= max {
      BegunHolds(max, target, generation, blob, i);
      InsertHolds(Begun(max, Cut(target, generation, blob, i)), target, generation, blob, i);
    }
  }

  lemma ChunkSpan(n: nat, i: nat)
    requires i < CountOf(n) && n > 0
    ensures i * CHUNK < End(n, i) <= n && End(n, i) <= (i + 1) * CHUNK
  {
  }

  lemma OtherSpan(n: nat, i: nat, k: nat, j: nat)
    requires i != k && i * CHUNK <= j < End(n, i)
    ensures !(k * CHUNK <= j < End(n, k))
  {
    if i < k {
      assert (i + 1) * CHUNK <= k * CHUNK;
    } else {
      assert (k + 1) * CHUNK <= i * CHUNK;
    }
  }

  lemma OverwrittenAt<T>(s: seq<T>, off: nat, b: seq<T>, j: nat)
    requires off + |b| <= |s| && j < |s|
    ensures Overwritten(s, off, b)[j] == if off <= j < off + |b| then b[j - off] else s[j]
  {
  }

  lemma InsertAgrees(buf: seq<byte>, blob: seq<byte>, i: nat, k: nat)
    requires |buf| == |blob| > 0 && k < CountOf(|blob|) && k * CHUNK <= End(|blob|, k)
    requires i == k || Agree(buf, blob, i)
    ensures Agree(Overwritten(buf, k * CHUNK, blob[k * CHUNK..End(|blob|, k)]), blob, i)
  {
    var part := blob[k * CHUNK..End(|blob|, k)];
    forall j | i * CHUNK <= j < End(|blob|, i)
      ensures Overwritten(buf, k * CHUNK, part)[j] == blob[j]
    {
      OverwrittenAt(buf, k * CHUNK, part, j);
      if i != k {
        OtherSpan(|blob|, i, k, j);
      }
    }
  }

  /** One of the blob's chunks, first or again, keeps it so. */
  lemma InsertHolds(rx: Rx, target: Target, generation: u16, blob: seq<byte>, k: nat)
    requires Sendable(blob) && Holds(rx, target, blob) && k < CountOf(|blob|) && |blob| > 0
    ensures var h := Cut(target, generation, blob, k);
            && Belongs(rx, h) && Holds(Inserted(rx, h), target, blob) && Inserted(rx, h).got == rx.got[k := true]
  {
    hide Agree;
    var h := Cut(target, generation, blob, k);
    ChunkSpan(|blob|, k);
    var after := Inserted(rx, h);
    forall i | 0 <= i < |after.got| && after.got[i]
      ensures Agree(after.buf, blob, i)
    {
      InsertAgrees(rx.buf, blob, i, k);
    }
  }

  /** A complete reassembly is the blob. */
  lemma CompleteIsBlob(rx: Rx, target: Target, blob: seq<byte>)
    requires Holds(rx, target, blob) && Complete(rx)
    ensures rx.buf == blob
  {
    AllTrue(rx.got);
    forall j | 0 <= j < |blob|
      ensures rx.buf[j] == blob[j]
    {
      var i := j / CHUNK;
      assert i < CountOf(|blob|) && i * CHUNK <= j < End(|blob|, i);
      assert Agree(rx.buf, blob, i);
    }
  }

  // ---- a store fetch --------------------------------------------------------------------------------

  /** The receiver of one blob: the reassembly and the generation it is of. */
  datatype Receiver = Receiver(rx: Rx, generation: Option<u16>)

  /** Must this chunk start the transfer over? A store fetch also starts over on a new generation. */
  predicate Restarts(r: Receiver, h: Chunk) {
    r.rx.Off? || |r.rx.got| != h.count || r.rx.total != h.total || r.generation != Some(h.generation)
  }

  /** `handleStoreChunk` up to completion, for the fetch of `target`; a refused size changes nothing here. */
  function Received(max: nat, target: Target, r: Receiver, h: Chunk): Receiver {
    if h.target != target || h.count == 0 || h.index >= h.count then r
    else if Restarts(r, h) then
      if h.total > max then r
      else if Begun(max, h).Off? then Receiver(Off, r.generation)
      else Receiver(Inserted(Begun(max, h), h), Some(h.generation))
    else Receiver(Inserted(r.rx, h), r.generation)
  }

  function ReceivedAll(max: nat, target: Target, r: Receiver, hs: seq<Chunk>): Receiver
    decreases |hs|
  {
    if hs == [] then r else Received(max, target, ReceivedAll(max, target, r, hs[..|hs| - 1]), hs[|hs| - 1])
  }

  /** Everything addressed to the target was cut from the blob of its generation; the rest is arbitrary. */
  ghost predicate FromHub(target: Target, blobs: u16 -> seq<byte>, hs: seq<Chunk>) {
    forall k :: 0 <= k < |hs| && hs[k].target == target ==> IsCut(target, blobs, hs[k])
  }

  ghost predicate IsCut(target: Target, blobs: u16 -> seq<byte>, h: Chunk) {
    var blob := blobs(h.generation);
    Sendable(blob) && h.index < CountOf(|blob|) && h == Cut(target, h.generation, blob, h.index)
  }

  /** The receiver holds bytes of one generation alone. */
  ghost predicate OneGeneration(target: Target, blobs: u16 -> seq<byte>, r: Receiver) {
    r.rx.On? ==> r.generation.Some? && Holds(r.rx, target, blobs(r.generation.value)) && |r.rx.buf| > 0
  }

  lemma ReceivedHolds(max: nat, target: Target, blobs: u16 -> seq<byte>, r: Receiver, h: Chunk)
    requires OneGeneration(target, blobs, r) && (h.target == target ==> IsCut(target, blobs, h))
    ensures OneGeneration(target, blobs, Received(max, target, r, h))
  {
    hide Holds, Inserted, Cut;
    if h.target == target {
      var blob := blobs(h.generation);
      CutIs(target, h.generation, blob, h.index);
      if Restarts(r, h) {
        if h.total <= max && Begun(max, h).On? {
          BegunHolds(max, target, h.generation, blob, h.index);
          InsertHolds(Begun(max, h), target, h.generation, blob, h.index);
          HeldSize(Inserted(Begun(max, h), h), target, blob);
        }
      } else {
        HeldSize(r.rx, target, blob);
        InsertHolds(r.rx, target, h.generation, blob, h.index);
        HeldSize(Inserted(r.rx, h), target, blob);
      }
    }
  }

  lemma HeldSize(rx: Rx, target: Target, blob: seq<byte>)
    requires Holds(rx, target, blob)
    ensures rx.On? && |rx.buf| == |blob|
  {
  }

  lemma CutIs(target: Target, generation: u16, blob: seq<byte>, i: nat)
    requires Sendable(blob) && i < CountOf(|blob|)
    ensures var h := Cut(target, generation, blob, i);
            h.target == target && h.generation == generation && h.index == i && h.count == CountOf(|blob|) && h.total == |blob|
  {
  }

  /**
   * Any order, duplicates, losses, foreign chunks and new generations: a store fetch that completes
   * has exactly the bytes of its generation.
   */
  lemma {:induction false} FetchIsBlob(max: nat, target: Target, blobs: u16 -> seq<byte>, hs: seq<Chunk>)
    requires FromHub(target, blobs, hs)
    ensures var r := ReceivedAll(max, target, Receiver(Off, None), hs);
            && OneGeneration(target, blobs, r)
            && (Complete(r.rx) ==> r.generation.Some? && r.rx.buf == blobs(r.generation.value))
  {
    var r := ReceivedAll(max, target, Receiver(Off, None), hs);
    if hs != [] {
      var n := |hs| - 1;
      FetchIsBlob(max, target, blobs, hs[..n]);
      ReceivedHolds(max, target, blobs, ReceivedAll(max, target, Receiver(Off, None), hs[..n]), hs[n]);
    }
    if Complete(r.rx) {
      CompleteIsBlob(r.rx, target, blobs(r.generation.value));
    }
  }

  // ---- repair ------------------------------------------------------------------------------------------

  /** `missingIndices`, from `i` on. */
  function MissingFrom(got: seq<bool>, i: nat): seq<nat>
    requires i <= |got|
    decreases |got| - i
  {
    if i == |got| then [] else (if got[i] then [] else [i]) + MissingFrom(got, i + 1)
  }

  /** Exactly the chunks not in. */
  lemma {:induction false} MissingHas(got: seq<bool>, i: nat, k: nat)
    requires i <= |got|
    ensures k in MissingFrom(got, i) <==> i <= k < |got| && !got[k]
    decreases |got| - i
  {
    if i < |got| {
      var here: seq<nat>, rest := if got[i] then [] else [i], MissingFrom(got, i + 1);
      MissingHas(got, i + 1, k);
      InJoin(here, rest, k);
      assert MissingFrom(got, i) == here + rest && (k in here <==> !got[i] && k == i);
    }
  }

  lemma InJoin<T>(a: seq<T>, b: seq<T>, x: T)
    ensures x in a + b <==> x in a || x in b
  {
  }

  ghost predicate Ascending(s: seq<nat>) {
    forall a, b :: 0 <= a < b < |s| ==> s[a] < s[b]
  }

  lemma {:induction false} MissingAscends(got: seq<bool>, i: nat)
    requires i <= |got|
    ensures Ascending(MissingFrom(got, i))
    decreases |got| - i
  {
    if i < |got| {
      MissingAscends(got, i + 1);
      var rest := MissingFrom(got, i + 1);
      forall a | 0 <= a < |rest|
        ensures rest[a] > i
      {
        MissingHas(got, i + 1, rest[a]);
      }
    }
  }

  /** Nothing is missing exactly when the reassembly is complete. */
  lemma NothingMissing(got: seq<bool>)
    ensures MissingFrom(got, 0) == [] <==> CountTrue(got) == |got|
  {
    AllTrue(got);
    forall k | 0 <= k < |got|
      ensures k in MissingFrom(got, 0) <==> !got[k]
    {
      MissingHas(got, 0, k);
    }
    if MissingFrom(got, 0) != [] {
      var k := MissingFrom(got, 0)[0];
      assert k in MissingFrom(got, 0);
      MissingHas(got, 0, k);
    }
  }

  ghost predicate Below(ks: seq<nat>, n: nat) {
    forall i :: 0 <= i < |ks| ==> ks[i] < n
  }

  /** These chunks have come in. */
  ghost function Fill(got: seq<bool>, ks: seq<nat>): (r: seq<bool>)
    requires Below(ks, |got|)
    ensures |r| == |got|
    decreases ks
  {
    if ks == [] then got else Fill(got[ks[0] := true], ks[1..])
  }

  lemma {:induction false} FillIs(got: seq<bool>, ks: seq<nat>, i: nat)
    requires Below(ks, |got|) && i < |got|
    ensures Fill(got, ks)[i] <==> got[i] || i in ks
    decreases ks
  {
    if ks != [] {
      FillIs(got[ks[0] := true], ks[1..], i);
      InJoin([ks[0]], ks[1..], i);
      assert [ks[0]] + ks[1..] == ks;
    }
  }

  /** Two ascending lists of the same numbers are one. */
  lemma {:induction false} SameAscending(a: seq<nat>, b: seq<nat>)
    requires Ascending(a) && Ascending(b) && forall x: nat :: x in a <==> x in b
    ensures a == b
  {
    if b != [] {
      assert b[0] in a;
    }
    if a != [] {
      assert a[0] in a;
      assert b[0] in b;
      var i :| 0 <= i < |b| && b[i] == a[0];
      var j :| 0 <= j < |a| && a[j] == b[0];
      assert a[0] == b[0];
      forall x
        ensures x in a[1..] <==> x in b[1..]
      {
        assert x in a <==> x == a[0] || x in a[1..];
        assert x in b <==> x == b[0] || x in b[1..];
        if x in a[1..] {
          var k :| 0 <= k < |a[1..]| && a[1..][k] == x;
          assert a[0] < a[k + 1];
        }
        if x in b[1..] {
          var k :| 0 <= k < |b[1..]| && b[1..][k] == x;
          assert b[0] < b[k + 1];
        }
      }
      SameAscending(a[1..], b[1..]);
      assert a == [a[0]] + a[1..] && b == [b[0]] + b[1..];
    }
  }

  const REPAIR := 32

  function Head(ks: seq<nat>): seq<nat> {
    if |ks| <= REPAIR then ks else ks[..REPAIR]
  }

  function Tail(ks: seq<nat>): seq<nat> {
    if |ks| <= REPAIR then [] else ks[REPAIR..]
  }

  lemma HeadTail(ks: seq<nat>, x: nat)
    requires Ascending(ks)
    ensures Ascending(Head(ks)) && Ascending(Tail(ks))
    ensures x in Tail(ks) <==> x in ks && x !in Head(ks)
  {
    assert Head(ks) + Tail(ks) == ks;
    InJoin(Head(ks), Tail(ks), x);
    forall a, b | 0 <= a < |Head(ks)| && 0 <= b < |Tail(ks)|
      ensures Head(ks)[a] != Tail(ks)[b]
    {
      assert ks[a] < ks[|Head(ks)| + b];
    }
  }

  lemma HeadBelow(got: seq<bool>)
    ensures Below(Head(MissingFrom(got, 0)), |got|)
  {
    var ks := MissingFrom(got, 0);
    forall i | 0 <= i < |Head(ks)|
      ensures Head(ks)[i] < |got|
    {
      MissingHas(got, 0, ks[i]);
    }
  }

  /** A repair round that loses nothing leaves the missing list without its first 32. */
  lemma RoundLeavesTail(got: seq<bool>)
    ensures Below(Head(MissingFrom(got, 0)), |got|)
    ensures MissingFrom(Fill(got, Head(MissingFrom(got, 0))), 0) == Tail(MissingFrom(got, 0))
  {
    hide MissingFrom, Fill, Head, Tail, Ascending;
    var ks := MissingFrom(got, 0);
    HeadBelow(got);
    var after := Fill(got, Head(ks));
    MissingAscends(got, 0);
    MissingAscends(after, 0);
    HeadTail(ks, 0);
    forall x: nat
      ensures x in MissingFrom(after, 0) <==> x in Tail(ks)
    {
      MissingHas(got, 0, x);
      MissingHas(after, 0, x);
      HeadTail(ks, x);
      if x < |got| {
        FillIs(got, Head(ks), x);
      }
    }
    SameAscending(MissingFrom(after, 0), Tail(ks));
  }

  function InsertedAll(rx: Rx, hs: seq<Chunk>): Rx
    decreases hs
  {
    if hs == [] then rx else InsertedAll(Inserted(rx, hs[0]), hs[1..])
  }

  /** When the chunks a repair asks for arrive, they are in. */
  lemma {:induction false} RepairFills(rx: Rx, target: Target, generation: u16, blob: seq<byte>, ks: seq<nat>)
    requires Sendable(blob) && Holds(rx, target, blob) && |blob| > 0 && Below(ks, |rx.got|)
    ensures var after := InsertedAll(rx, Cuts(target, generation, blob, ks));
            Holds(after, target, blob) && after.got == Fill(rx.got, ks)
    decreases ks
  {
    hide Inserted, Cut, Agree;
    if ks != [] {
      var h := Cut(target, generation, blob, ks[0]);
      InsertHolds(rx, target, generation, blob, ks[0]);
      RepairFills(Inserted(rx, h), target, generation, blob, ks[1..]);
      var rest := Cuts(target, generation, blob, ks[1..]);
      assert ([h] + rest)[0] == h && ([h] + rest)[1..] == rest;
    }
  }

  /** The chunks in after `n` rounds that lose nothing. */
  ghost function AfterRounds(got: seq<bool>, n: nat): (r: seq<bool>)
    ensures |r| == |got|
    decreases n
  {
    if n == 0 then got
    else
      HeadBelow(got);
      AfterRounds(Fill(got, Head(MissingFrom(got, 0))), n - 1)
  }

  function Rounds(m: nat): nat {
    (m + REPAIR - 1) / REPAIR
  }

  /** Repair of `m` missing chunks that loses nothing ends after ceil(m/32) rounds, and not before. */
  lemma {:induction false} RepairRounds(got: seq<bool>, n: nat)
    ensures MissingFrom(AfterRounds(got, n), 0) == [] <==> n >= Rounds(|MissingFrom(got, 0)|)
    decreases n
  {
    if n > 0 {
      RoundLeavesTail(got);
      RepairRounds(Fill(got, Head(MissingFrom(got, 0))), n - 1);
    }
  }

  // ---- several catalogs -------------------------------------------------------------------------

  /** The catalog transfer starts over on other numbers, but not on other contents. */
  function CatalogReceived(max: nat, rx: Rx, h: Chunk): Rx {
    if rx.Off? || |rx.got| != h.count || rx.total != h.total then Inserted(Begun(max, h), h) else Inserted(rx, h)
  }

  const CATALOG := Target(0, 0, 0)

  /**
   * Chunks of two catalogs of the same size mix: the transfer completes with neither. That is why
   * the client checks the etag.
   */
  lemma CatalogsMix(a: seq<byte>, b: seq<byte>, max: nat)
    requires |a| == |b| == 2 * CHUNK <= max && a[..CHUNK] != b[..CHUNK] && a[CHUNK..] != b[CHUNK..]
    ensures var rx := CatalogReceived(max, CatalogReceived(max, Off, Cut(CATALOG, 0, a, 0)), Cut(CATALOG, 0, b, 1));
            Complete(rx) && rx.buf == a[..CHUNK] + b[CHUNK..] && rx.buf != a && rx.buf != b
  {
    var h, k := Cut(CATALOG, 0, a, 0), Cut(CATALOG, 0, b, 1);
    var one := CatalogReceived(max, Off, h);
    assert one.got == [true, false];
    var two := CatalogReceived(max, one, k);
    assert two.got == [true, true];
    AllTrue(two.got);
    assert h.bytes == a[..CHUNK] && k.bytes == b[CHUNK..];
    assert one.buf[..CHUNK] == a[..CHUNK];
    assert two.buf == a[..CHUNK] + b[CHUNK..];
    assert two.buf[..CHUNK] == a[..CHUNK] && two.buf[CHUNK..] == b[CHUNK..];
  }

  /** The reassembly after these catalog chunks, from a fresh start. */
  function CatalogReceivedAll(max: nat, hs: seq<Chunk>): Rx
    decreases |hs|
  {
    if hs == [] then Off else CatalogReceived(max, CatalogReceivedAll(max, hs[..|hs| - 1]), hs[|hs| - 1])
  }

  /** Chunk `k` was cut from catalog `src[k]`, whichever that is. */
  ghost predicate FromCatalogs(max: nat, hs: seq<Chunk>, src: seq<seq<byte>>) {
    |src| == |hs| && forall k :: 0 <= k < |hs| ==> CutFrom(max, hs[k], src[k])
  }

  ghost predicate CutFrom(max: nat, h: Chunk, b: seq<byte>) {
    Sendable(b) && 0 < |b| <= max && h.index < CountOf(|b|) && h == Cut(CATALOG, 0, b, h.index)
  }

  /** The last chunk of an index to come since the transfer began, which chunks of another size start over. */
  function LastFor(hs: seq<Chunk>, i: nat): (r: Option<Chunk>)
    decreases |hs|
  {
    if hs == [] then None
    else
      var n := |hs| - 1;
      if hs[n].index == i then Some(hs[n])
      else if n > 0 && hs[n - 1].total == hs[n].total then LastFor(hs[..n], i)
      else None
  }

  /** Bytes `i * CHUNK` to the end of chunk `i`. */
  function Part(b: seq<byte>, i: nat): seq<byte>
    requires i < CountOf(|b|)
  {
    b[i * CHUNK..End(|b|, i)]
  }

  /** The reassembly holds, of every index, the bytes of the last chunk to come, and of no other index anything. */
  ghost predicate HoldsLast(rx: Rx, hs: seq<Chunk>) {
    && hs != [] && rx.On? && rx.target == CATALOG && rx.total == hs[|hs| - 1].total == |rx.buf| && |rx.got| == CountOf(rx.total)
    && forall i :: 0 <= i < |rx.got| ==>
         (rx.got[i] <==> LastFor(hs, i).Some?) && (rx.got[i] ==> Part(rx.buf, i) == LastFor(hs, i).value.bytes)
  }

  lemma PartSize(n: nat, i: nat)
    requires i < CountOf(n)
    ensures i * CHUNK <= End(n, i) <= n
  {
  }

  /** A part put in replaces that part and no other. */
  lemma PartPut(buf: seq<byte>, k: nat, bytes: seq<byte>, i: nat)
    requires k < CountOf(|buf|) && i < CountOf(|buf|) && |buf| > 0 && |bytes| == End(|buf|, k) - k * CHUNK
    ensures k * CHUNK + |bytes| <= |buf|
    ensures Part(Overwritten(buf, k * CHUNK, bytes), i) == if i == k then bytes else Part(buf, i)
  {
    PartSize(|buf|, k);
    PartSize(|buf|, i);
    var r := Overwritten(buf, k * CHUNK, bytes);
    forall j | i * CHUNK <= j < End(|buf|, i)
      ensures r[j] == if i == k then bytes[j - k * CHUNK] else buf[j]
    {
      OverwrittenAt(buf, k * CHUNK, bytes, j);
      if i != k {
        OtherSpan(|buf|, i, k, j);
      }
    }
    if i == k {
      assert Part(r, i) == bytes;
    } else {
      assert Part(r, i) == Part(buf, i);
    }
  }

  lemma CutShape(max: nat, h: Chunk, b: seq<byte>)
    requires CutFrom(max, h, b)
    ensures h.target == CATALOG && h.total == |b| && h.count == CountOf(|b|) && 0 < h.total <= max && h.index < h.count
    ensures |h.bytes| == End(h.total, h.index) - h.index * CHUNK && h.index * CHUNK + |h.bytes| <= h.total
  {
    PartSize(|b|, h.index);
  }

  /** What one more chunk does to the reassembly it goes into. */
  lemma InsertLast(start: Rx, h: Chunk)
    requires start.On? && start.target == CATALOG && start.total == h.total == |start.buf| > 0 && |start.got| == CountOf(h.total) == h.count
    requires h.target == CATALOG && h.index < h.count && |h.bytes| == End(h.total, h.index) - h.index * CHUNK
    ensures var rx := Inserted(start, h);
            && rx.On? && rx.target == CATALOG && rx.total == h.total == |rx.buf| && |rx.got| == CountOf(rx.total)
            && forall i :: 0 <= i < |rx.got| ==>
                 && (rx.got[i] <==> i == h.index || start.got[i])
                 && Part(rx.buf, i) == if i == h.index then h.bytes else Part(start.buf, i)
  {
    hide Part, Overwritten;
    PartPut(start.buf, h.index, h.bytes, h.index);
    var rx := Inserted(start, h);
    forall i | 0 <= i < |rx.got|
      ensures Part(rx.buf, i) == if i == h.index then h.bytes else Part(start.buf, i)
    {
      PartPut(start.buf, h.index, h.bytes, i);
    }
  }

  lemma {:induction false} ReceivedLast(max: nat, hs: seq<Chunk>, src: seq<seq<byte>>)
    requires FromCatalogs(max, hs, src) && hs != []
    ensures HoldsLast(CatalogReceivedAll(max, hs), hs)
    decreases |hs|
  {
    hide Inserted, CutFrom, Part;
    var n := |hs| - 1;
    var h, before := hs[n], CatalogReceivedAll(max, hs[..n]);
    CutShape(max, h, src[n]);
    if n > 0 {
      ReceivedLast(max, hs[..n], src[..n]);
      CutShape(max, hs[n - 1], src[n - 1]);
      assert hs[..n][n - 1] == hs[n - 1];
    }
    var start := if n > 0 && hs[n - 1].total == h.total then before else Begun(max, h);
    InsertLast(start, h);
    assert CatalogReceivedAll(max, hs) == Inserted(start, h);
  }

  lemma {:induction false} SameParts(a: seq<byte>, b: seq<byte>)
    requires |a| == |b| > 0
    ensures a == b <==> forall i :: 0 <= i < CountOf(|b|) ==> Part(a, i) == Part(b, i)
  {
    if forall i :: 0 <= i < CountOf(|b|) ==> Part(a, i) == Part(b, i) {
      forall j | 0 <= j < |a|
        ensures a[j] == b[j]
      {
        var i := j / CHUNK;
        assert i < CountOf(|b|) && i * CHUNK <= j < End(|b|, i);
        assert a[j] == Part(a, i)[j - i * CHUNK] && b[j] == Part(b, i)[j - i * CHUNK];
      }
    }
  }

  /** Every index was last received with the bytes of `b`. */
  ghost predicate LastAreOf(hs: seq<Chunk>, b: seq<byte>) {
    forall i :: 0 <= i < CountOf(|b|) ==> LastFor(hs, i).Some? && LastFor(hs, i).value.bytes == Part(b, i)
  }

  /**
   * Chunks of any number of catalogs, in any order: a complete transfer is the catalog `b` if and only
   * if it has its size, and of every index the last chunk to come since it began carried the bytes of `b`.
   */
  lemma WholeWhen(max: nat, hs: seq<Chunk>, src: seq<seq<byte>>, b: seq<byte>)
    requires FromCatalogs(max, hs, src) && Complete(CatalogReceivedAll(max, hs))
    ensures var rx := CatalogReceivedAll(max, hs); rx.buf == b <==> rx.total == |b| && LastAreOf(hs, b)
  {
    hide Part, CatalogReceivedAll;
    var rx := CatalogReceivedAll(max, hs);
    NothingYet(max);
    ReceivedLast(max, hs, src);
    CutShape(max, hs[|hs| - 1], src[|hs| - 1]);
    AllTrue(rx.got);
    if rx.total == |b| {
      SameParts(rx.buf, b);
    }
  }

  lemma NothingYet(max: nat)
    ensures CatalogReceivedAll(max, []) == Off
  {
  }

  /** The etag of what arrived is that of `b` exactly then, if the digest names no other bytes. */
  lemma EtagTells(digest: seq<byte> -> seq<byte>, max: nat, hs: seq<Chunk>, src: seq<seq<byte>>, b: seq<byte>)
    requires FromCatalogs(max, hs, src) && Complete(CatalogReceivedAll(max, hs))
    requires forall x: seq<byte> :: digest(x) == digest(b) ==> x == b
    ensures var rx := CatalogReceivedAll(max, hs); digest(rx.buf) == digest(b) <==> rx.total == |b| && LastAreOf(hs, b)
  {
    hide LastAreOf, CatalogReceivedAll;
    WholeWhen(max, hs, src, b);
  }

  lemma {:induction false} LastIsOne(max: nat, hs: seq<Chunk>, src: seq<seq<byte>>, i: nat)
    requires FromCatalogs(max, hs, src)
    ensures LastFor(hs, i).Some? ==>
              hs[|hs| - 1].total == LastFor(hs, i).value.total
              && exists k :: 0 <= k < |hs| && LastFor(hs, i).value == hs[k] && hs[k].index == i
    decreases |hs|
  {
    if hs != [] {
      LastIsOne(max, hs[..|hs| - 1], src[..|hs| - 1], i);
    }
  }

  /** Chunks of `b`, mixed with those of catalogs of other sizes alone, complete to `b` or to another size. */
  lemma OneOfItsSize(max: nat, hs: seq<Chunk>, src: seq<seq<byte>>, b: seq<byte>)
    requires FromCatalogs(max, hs, src) && Complete(CatalogReceivedAll(max, hs))
    requires forall k :: 0 <= k < |src| && |src[k]| == |b| ==> src[k] == b
    ensures var rx := CatalogReceivedAll(max, hs); rx.total == |b| ==> rx.buf == b
  {
    hide Part, CatalogReceivedAll;
    var rx := CatalogReceivedAll(max, hs);
    NothingYet(max);
    ReceivedLast(max, hs, src);
    AllTrue(rx.got);
    WholeWhen(max, hs, src, b);
    if rx.total == |b| {
      forall i | 0 <= i < CountOf(|b|)
        ensures LastFor(hs, i).Some? && LastFor(hs, i).value.bytes == Part(b, i)
      {
        LastIsOne(max, hs, src, i);
        var k :| 0 <= k < |hs| && LastFor(hs, i).value == hs[k] && hs[k].index == i;
        PartOf(max, hs[k], src[k]);
      }
    }
  }

  lemma PartOf(max: nat, h: Chunk, b: seq<byte>)
    requires CutFrom(max, h, b)
    ensures h.bytes == Part(b, h.index) && h.total == |b|
  {
  }
}
