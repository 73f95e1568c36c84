/** The client's reassembler as it stands (clients/js/catalog.js), and one store fetch over it. */
module Reassembler {
  import opened Bytes
  import opened Blob

  // catalog_chunk_gap_timeout_ms and frag_reassembly_timeout_ms are the caller's.

  class BlobReassembler {
    const max: nat
    var active: bool
    var target: Target
    var total: nat
    var received: array<bool>
    var receivedCount: nat
    var buf: array<byte>
    var startMs: int
    var lastProgressMs: int

    ghost predicate Valid()
      reads this, received, buf
    {
      active ==> receivedCount == CountTrue(received[..]) && total == buf.Length && 0 < received.Length && total <= max
    }

    ghost function Abs(): Rx
      reads this, received, buf
    {
      if active then On(target, total, received[..], buf[..]) else Off
    }

    constructor (max: nat)
      ensures Valid() && Abs() == Off && this.max == max && fresh(received) && fresh(buf)
    {
      this.max := max;
      active, target, total, receivedCount, startMs, lastProgressMs := false, Target(0, 0, 0), 0, 0, 0, 0;
      received, buf := new bool[0], new byte[0];
    }

    method Reset()
      modifies this
      ensures Valid() && Abs() == Off && fresh(received) && fresh(buf)
    {
      active, target, total, receivedCount, startMs, lastProgressMs := false, Target(0, 0, 0), 0, 0, 0, 0;
      received, buf := new bool[0], new byte[0];
    }

    /** `begin`: what was there is dropped even when the new header is refused. */
    method Begin(h: Chunk, nowMs: int) returns (ok: bool)
      modifies this
      ensures Valid() && Abs() == Begun(max, h) && ok == Begun(max, h).On?
      ensures fresh(received) && fresh(buf)
      ensures ok ==> startMs == nowMs == lastProgressMs
    {
      ok := h.count > 0 && 0 < h.total <= max;
      Reset();
      if !ok {
        return;
      }
      active, target, total, receivedCount := true, h.target, h.total, 0;
      received := new bool[h.count](i => false);
      buf := new byte[h.total](i => 0);
      startMs, lastProgressMs := nowMs, nowMs;
      assert received[..] == NoneIn(h.count) && buf[..] == Blank(h.total);
      NoneCounted(h.count);
    }

    /** `insert`: duplicates are copied again and counted once. */
    method Insert(h: Chunk, nowMs: int) returns (ok: bool)
      requires Valid()
      modifies this, received, buf
      ensures Valid() && received == old(received) && buf == old(buf)
      ensures Abs() == Inserted(old(Abs()), h) && ok == Belongs(old(Abs()), h)
      ensures lastProgressMs == (if ok then nowMs else old(lastProgressMs)) && startMs == old(startMs)
    {
      if !active || h.target != target {
        return false;
      }
      if h.count != received.Length || h.index >= received.Length {
        return false;
      }
      var offset := h.index * CHUNK;
      if offset + |h.bytes| > buf.Length {
        return false;
      }
      Copy(buf, offset, h.bytes);
      CountSet(received[..], h.index);
      if !received[h.index] {
        received[h.index] := true;
        receivedCount := receivedCount + 1;
      }
      assert received[..] == old(received[..])[h.index := true];
      lastProgressMs := nowMs;
      ok := true;
    }

    method IsComplete() returns (done: bool)
      requires Valid()
      ensures done == Complete(Abs())
    {
      done := active && receivedCount == received.Length;
    }

    /** `missingIndices`. */
    method MissingIndices() returns (out: seq<nat>)
      requires Valid()
      ensures out == if active then MissingFrom(received[..], 0) else []
    {
      out := [];
      if !active {
        return;
      }
      var i := 0;
      while i < received.Length
        invariant i <= received.Length && out + MissingFrom(received[..], i) == MissingFrom(received[..], 0)
      {
        Rebracket(out, if received[i] then [] else [i], MissingFrom(received[..], i + 1));
        if !received[i] {
          out := out + [i];
        }
        i := i + 1;
      }
    }

    /** No progress for `gap` while incomplete. */
    method GapElapsed(nowMs: int, gap: int) returns (yes: bool)
      requires Valid()
      ensures yes <==> Abs().On? && !Complete(Abs()) && nowMs - lastProgressMs >= gap
    {
      yes := active && receivedCount != received.Length && nowMs - lastProgressMs >= gap;
    }
  }

  method Copy(a: array<byte>, at: nat, s: seq<byte>)
    requires at + |s| <= a.Length
    modifies a
    ensures a[..] == Overwritten(old(a[..]), at, s)
  {
    forall j | 0 <= j < |s| {
      a[at + j] := s[j];
    }
    assert a[..] == Overwritten(old(a[..]), at, s) by { CopiedIs(old(a[..]), at, s, a[..]); }
  }

  lemma CopiedIs(before: seq<byte>, at: nat, s: seq<byte>, after: seq<byte>)
    requires at + |s| <= |before| == |after|
    requires forall j :: 0 <= j < |before| ==> after[j] == if at <= j < at + |s| then s[j - at] else before[j]
    ensures after == Overwritten(before, at, s)
  {
  }

  lemma {:induction false} NoneCounted(n: nat)
    ensures CountTrue(NoneIn(n)) == 0
  {
    if n > 0 {
      assert NoneIn(n)[1..] == NoneIn(n - 1);
      NoneCounted(n - 1);
    }
  }

  // ---- one store fetch -----------------------------------------------------------------------------

  /** What a chunk comes to: nothing yet, a refusal of the declared size, or the whole blob. */
  datatype Verdict = Pending | Oversize | Whole(generation: u16, bytes: seq<byte>)

  class StoreFetch {
    const target: Target
    const rx: BlobReassembler
    var generation: Option<u16>

    ghost predicate Valid()
      reads this, rx, rx.received, rx.buf
    {
      rx.Valid() && (rx.active ==> generation.Some?)
    }

    ghost function Abs(): Receiver
      reads this, rx, rx.received, rx.buf
    {
      Receiver(rx.Abs(), generation)
    }

    constructor (target: Target, max: nat)
      ensures Valid() && Abs() == Receiver(Off, None) && this.target == target && rx.max == max
      ensures fresh(rx) && fresh(rx.received) && fresh(rx.buf)
    {
      this.target := target;
      rx := new BlobReassembler(max);
      generation := None;
    }

    /** `handleStoreChunk`, up to what the chunk comes to. */
    method Receive(h: Chunk, nowMs: int) returns (v: Verdict)
      requires Valid()
      modifies this, rx, rx.received, rx.buf
      ensures Valid() && Abs() == Received(rx.max, target, old(Abs()), h)
      ensures rx.received == old(rx.received) || fresh(rx.received)
      ensures rx.buf == old(rx.buf) || fresh(rx.buf)
      ensures v.Whole? ==> Complete(Abs().rx) && v.bytes == Abs().rx.buf && generation == Some(v.generation)
      ensures v.Oversize? <==> Ours(target, h) && Restarts(old(Abs()), h) && h.total > rx.max
      ensures Ours(target, h) && !v.Oversize? && Complete(Abs().rx) ==> v.Whole? || !Belongs(Started(rx.max, old(Abs()), h), h)
    {
      if h.target != target || h.count == 0 || h.index >= h.count {
        return Pending;
      }
      if !rx.active || rx.received.Length != h.count || rx.total != h.total || generation != Some(h.generation) {
        if h.total > rx.max {
          return Oversize;
        }
        var begun := rx.Begin(h, nowMs);
        if !begun {
          return Pending;
        }
        generation := Some(h.generation);
      }
      var ok := rx.Insert(h, nowMs);
      var done := rx.IsComplete();
      if !ok || !done {
        return Pending;
      }
      v := Whole(generation.value, rx.buf[..]);
    }
  }

  predicate Ours(target: Target, h: Chunk) {
    h.target == target && h.count > 0 && h.index < h.count
  }

  /** The reassembly a chunk meets: its own fresh one, or the one in progress. */
  function Started(max: nat, r: Receiver, h: Chunk): Rx {
    if Restarts(r, h) then Begun(max, h) else r.rx
  }
}
