/** The session's queue of store fetches as it stands (clients/js/session.js). */
module StoreQueue {
  import opened Bytes
  import opened Blob
  import opened FetchQueue
  import FetchEnds

  class Session {
    const lim: Limits
    var fetches: seq<Fetch>
    var catalogInFlight: bool
    var open: bool
    var intentSeq: nat
    var next: nat
    var log: seq<Out>

    function Abs(): Queue
      reads this
    {
      Queue(fetches, catalogInFlight, open, intentSeq, next, log)
    }

    constructor (lim: Limits)
      ensures Abs() == EMPTY && this.lim == lim
    {
      this.lim := lim;
      fetches, catalogInFlight, open, intentSeq, next, log := [], false, false, 0, 0, [];
    }

    /** `sendFrame`: nothing goes out on a socket that is not open. */
    method Send(o: Out)
      modifies this`log
      ensures log == if open then old(log) + [o] else old(log)
    {
      if open {
        log := log + [o];
      }
    }

    /** `sendStoreReq` for the head. */
    method SendRequest(first: bool, chunks: seq<nat>)
      requires fetches != []
      modifies this`fetches, this`intentSeq, this`log
      ensures Abs() == Requested(old(Abs()), first, chunks)
    {
      intentSeq := intentSeq % 0xffff + 1;
      var f := fetches[0];
      fetches := [f.(seqs := f.seqs + {intentSeq})] + fetches[1..];
      Send(Request(f.id, intentSeq, first, chunks));
    }

    /** `finishFetch`: out of the queue once, reported if due, settled, and the next one pumped. */
    method Finish(i: nat, how: How, nowMs: int)
      requires i < |fetches|
      modifies this
      ensures Abs() == Finished(old(Abs()), i, how, lim, nowMs)
      decreases |fetches|, 0
    {
      var f := fetches[i];
      fetches := fetches[..i] + fetches[i + 1..];
      var due := Owes(how, OnWire(f));
      if due.Some? {
        Send(FetchQueue.Done(f.id, due.value));
      }
      log := log + [Settled(f.id, how, OnWire(f), open)];
      assert Abs() == Concluded(old(Abs()), i, how);
      Pump(nowMs);
    }

    /** `pumpStoreFetch`. */
    method Pump(nowMs: int)
      modifies this
      ensures Abs() == Pumped(old(Abs()), lim, nowMs)
      decreases |fetches|, 1
    {
      hide Concluded;
      if fetches == [] {
        return;
      }
      var f := fetches[0];
      if !OnWire(f) {
        if catalogInFlight || !open {
          return;
        }
        fetches := [f.(startMs := nowMs)] + fetches[1..];
        SendRequest(true, []);
        return;
      }
      if nowMs - f.startMs >= lim.timeoutMs {
        Finish(0, TimedOut, nowMs);
        return;
      }
      if !GapElapsed(f, lim, nowMs) {
        return;
      }
      var missing := MissingFrom(f.rx.rx.got, 0);
      if missing != [] {
        SendRequest(false, Head(missing));
        fetches := [fetches[0].(progressMs := nowMs)] + fetches[1..];
      }
    }

    /** `fetchBlob`. */
    method Ask(target: Target, known: bool, nowMs: int)
      modifies this
      ensures Abs() == Asked(old(Abs()), lim, target, known, nowMs)
    {
      hide Pumped;
      var id := next;
      next := next + 1;
      if target.ns == 0 || !open || !known {
        log := log + [Settled(id, Rejected, false, open)];
        return;
      }
      fetches := fetches + [Fetch(id, target, {}, 0, 0, Receiver(Off, None))];
      Pump(nowMs);
    }

    /** `requestCatalog`: the cursor is taken first, so the abort cannot start the next fetch. */
    method RequestCatalog(nowMs: int)
      modifies this
      ensures Abs() == CatalogAsked(old(Abs()), lim, nowMs)
    {
      hide Concluded, Pumped;
      catalogInFlight := true;
      if fetches != [] && OnWire(fetches[0]) {
        SocketKept(Abs(), lim, nowMs);
        Finish(0, Aborted, nowMs);
      }
      Send(CatalogRequest);
    }

    /** `handleStoreChunk`. */
    method Arrive(h: Chunk, nowMs: int, digestOk: bool)
      modifies this
      ensures Abs() == ChunkArrived(old(Abs()), lim, h, nowMs, digestOk)
      ensures if old(fetches) != [] && FetchEnds.Completes(old(Abs()), lim.max, h, old(fetches)[0].id)
              then old(log) + FetchEnds.Verdict(old(fetches)[0].id, old(open), digestOk) <= log
              else log == old(log)
    {
      hide Concluded, Pumped, Received, Begun, Belongs, Complete, Restarts, FetchEnds.Completes;
      FetchEnds.ArrivedSays(Abs(), lim, h, nowMs, digestOk);
      if fetches == [] || !OnWire(fetches[0]) || h.target != fetches[0].target || h.count == 0 || h.index >= h.count {
        return;
      }
      var f := fetches[0];
      if Restarts(f.rx, h) && h.total > lim.max {
        open := false;
        return;
      }
      var t := Transfer(lim, f.rx, h);
      var moved := (Restarts(f.rx, h) && t.On?) || Belongs(t, h);
      var g := f.(rx := Received(lim.max, f.target, f.rx, h), progressMs := if moved then nowMs else f.progressMs);
      fetches := [g] + fetches[1..];
      if Belongs(t, h) && Complete(g.rx.rx) {
        Finish(0, if digestOk then Resolved else Mismatched, nowMs);
      }
    }

    /** `nackStoreFetch`. */
    method Refused(seqno: nat, nowMs: int) returns (mine: bool)
      modifies this
      ensures Abs() == Next(old(Abs()), lim, Refusal(seqno, nowMs))
      ensures mine <==> old(fetches) != [] && seqno in old(fetches)[0].seqs
    {
      hide Concluded, Pumped;
      mine := fetches != [] && seqno in fetches[0].seqs;
      if mine {
        Finish(0, Nacked, nowMs);
      }
    }

    /** `abortFetch`, by number. */
    method Abort(id: nat, nowMs: int)
      modifies this
      ensures Abs() == Next(old(Abs()), lim, Cancel(id, nowMs))
    {
      hide Concluded, Pumped;
      var i := IndexOf(fetches, id);
      if i.Some? {
        Finish(i.value, Aborted, nowMs);
      }
    }

    /** `onclose`: every fetch is rejected, in order. */
    method Close()
      modifies this
      ensures Abs() == Next(old(Abs()), lim, Closes)
    {
      open := false;
      while fetches != []
        invariant AllClosed(Abs()) == AllClosed(old(Abs()).(open := false))
        invariant !open
        decreases |fetches|
      {
        var f := fetches[0];
        assert Concluded(Abs(), 0, SocketClosed)
            == Abs().(fetches := fetches[1..], log := log + [Settled(f.id, SocketClosed, OnWire(f), false)]) by {
          FirstDropped(fetches);
        }
        fetches, log := fetches[1..], log + [Settled(f.id, SocketClosed, OnWire(f), false)];
      }
      catalogInFlight := false;
    }
  }

  lemma FirstDropped(s: seq<Fetch>)
    requires s != []
    ensures Dropped(s, 0) == s[1..]
  {
  }

  /** Aborting the head does not touch the socket. */
  lemma SocketKept(q: Queue, lim: Limits, nowMs: int)
    requires q.fetches != [] && q.catalogInFlight
    ensures Finished(q, 0, Aborted, lim, nowMs).open == q.open
  {
    PumpKeepsSocket(Concluded(q, 0, Aborted), lim, nowMs);
  }

  lemma {:induction false} PumpKeepsSocket(q: Queue, lim: Limits, nowMs: int)
    ensures Pumped(q, lim, nowMs).open == q.open
    decreases |q.fetches|
  {
    if q.fetches != [] && OnWire(q.fetches[0]) && nowMs - q.fetches[0].startMs >= lim.timeoutMs {
      PumpKeepsSocket(Concluded(q, 0, TimedOut), lim, nowMs);
    }
  }
}
