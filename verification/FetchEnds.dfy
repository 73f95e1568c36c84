/** How each store fetch ends, and what the hub is told of it (clients/js/session.js). */
module FetchEnds {
  import opened Bytes
  import opened Blob
  import opened FetchQueue

  // ---- what ends a fetch ------------------------------------------------------------------------

  /**
   * The chunk is for the fetch, which is on the wire at the head of the queue, and is the last its
   * transfer lacked; a chunk of another shape or generation begins a transfer of its own.
   */
  ghost predicate Completes(q: Queue, max: nat, h: Chunk, id: nat) {
    && q.fetches != [] && q.fetches[0].id == id && q.fetches[0].seqs != {} && h.target == q.fetches[0].target
    && h.index < h.count
    && var r := q.fetches[0].rx;
       if r.rx.On? && |r.rx.got| == h.count && r.rx.total == h.total && r.generation == Some(h.generation) then
         r.rx.target == h.target && 192 * h.index + |h.bytes| <= |r.rx.buf|
         && forall i :: 0 <= i < h.count && i != h.index ==> r.rx.got[i]
       else 0 < h.total <= max && h.count == 1 && |h.bytes| <= h.total
  }

  /** The head has been on the wire for its time. */
  predicate RunsOut(q: Queue, lim: Limits, nowMs: int, id: nat) {
    q.fetches != [] && q.fetches[0].id == id && q.fetches[0].seqs != {} && nowMs - q.fetches[0].startMs >= lim.timeoutMs
  }

  /** The event ends the fetch in this way. */
  ghost predicate Brings(q: Queue, lim: Limits, ev: Event, id: nat, how: How) {
    match how
    case Rejected => ev.Ask? && id == q.next && (ev.target.ns == 0 || !q.open || !ev.known)
    case Resolved => ev.Arrives? && ev.digestOk && Completes(q, lim.max, ev.h, id)
    case Mismatched => ev.Arrives? && !ev.digestOk && Completes(q, lim.max, ev.h, id)
    case Nacked => ev.Refusal? && q.fetches != [] && q.fetches[0].id == id && ev.seqno in q.fetches[0].seqs
    case Aborted =>
      || (ev.Cancel? && ev.id == id && Queued(q, id))
      || (ev.AskCatalog? && q.fetches != [] && q.fetches[0].id == id && q.fetches[0].seqs != {})
    case SocketClosed => ev.Closes? && Queued(q, id)
    case TimedOut =>
      || (ev.Tick? && RunsOut(q, lim, ev.nowMs, id))
      || (ev.Ask? && ev.target.ns != 0 && q.open && ev.known && RunsOut(q, lim, ev.nowMs, id))
      || (ev.Cancel? && ev.id != id && Queued(q, ev.id) && RunsOut(q, lim, ev.nowMs, id))
  }

  // ---- the log -----------------------------------------------------------------------------------

  ghost predicate Ends(log: seq<Out>, id: nat, how: How) {
    exists i :: 0 <= i < |log| && log[i].Settled? && log[i].id == id && log[i].how == how
  }

  /** A BLOB_DONE tells the hub how the fetch ended. */
  predicate Tells(d: Out, o: Out) {
    && d.Done? && o.Settled? && o.id == d.id && o.onWire && o.open
    && match d.status
       case VerifiedComplete => o.how == Resolved
       case HashMismatch => o.how == Mismatched
       case GivenUp => o.how == TimedOut || o.how == Aborted
  }

  /** Every BLOB_DONE goes out as its fetch ends, and every end the hub has not heard of sends one. */
  ghost predicate Told(log: seq<Out>) {
    && (forall i :: 0 <= i < |log| && log[i].Done? ==> i + 1 < |log| && Tells(log[i], log[i + 1]))
    && (forall i :: 0 <= i < |log| && Unheard(log[i]) ==> i > 0 && Tells(log[i - 1], log[i]))
  }

  /** `b` is `a` with more said, of which the end `how` of `id` exactly if `yes`. */
  ghost predicate Says(a: seq<Out>, b: seq<Out>, id: nat, how: How, yes: bool) {
    a <= b && (Told(a) ==> Told(b)) && (Ends(b, id, how) <==> Ends(a, id, how) || yes)
  }

  lemma SaysMore(a: seq<Out>, b: seq<Out>, c: seq<Out>, id: nat, how: How, x: bool, y: bool)
    requires Says(a, b, id, how, x) && Says(b, c, id, how, y)
    ensures Says(a, c, id, how, x || y)
  {
  }

  lemma SaysNothing(a: seq<Out>, id: nat, how: How)
    ensures Says(a, a, id, how, false)
  {
  }

  lemma EndsMore(log: seq<Out>, o: Out, id: nat, how: How)
    ensures Ends(log + [o], id, how) <==> Ends(log, id, how) || (o.Settled? && o.id == id && o.how == how)
  {
    if Ends(log, id, how) {
      var i :| 0 <= i < |log| && log[i].Settled? && log[i].id == id && log[i].how == how;
      assert (log + [o])[i] == log[i];
    }
    assert (log + [o])[|log|] == o;
  }

  /** Something said of no end. */
  lemma SaysOther(log: seq<Out>, o: Out, id: nat, how: How)
    requires !o.Done? && !Unheard(o)
    ensures Says(log, log + [o], id, how, o.Settled? && o.id == id && o.how == how)
  {
    EndsMore(log, o, id, how);
  }

  lemma SaysEnd(log: seq<Out>, d: Out, o: Out, id: nat, how: How)
    requires Tells(d, o)
    ensures Says(log, log + [d] + [o], id, how, o.id == id && o.how == how)
  {
    EndsMore(log, d, id, how);
    EndsMore(log + [d], o, id, how);
  }

  // ---- the steps of the queue ---------------------------------------------------------------------

  lemma ConcludedSays(q: Queue, i: nat, how: How, id: nat, other: How)
    requires i < |q.fetches| && Possible(q.fetches[i], how)
    ensures Says(q.log, Concluded(q, i, how).log, id, other, q.fetches[i].id == id && how == other)
  {
    hide Says, Dropped, OnWire;
    var f := q.fetches[i];
    var o := Settled(f.id, how, OnWire(f), q.open);
    var due := Owes(how, OnWire(f));
    if due.Some? && q.open {
      SaysEnd(q.log, Done(f.id, due.value), o, id, other);
    } else {
      SaysOther(q.log, o, id, other);
    }
  }

  lemma RequestedSays(q: Queue, first: bool, chunks: seq<nat>, id: nat, how: How)
    requires q.fetches != []
    ensures Says(q.log, Requested(q, first, chunks).log, id, how, false)
  {
    hide Says;
    var o := Request(q.fetches[0].id, NextSeq(q.intentSeq), first, chunks);
    SaysOther(q.log, o, id, how);
    SaysNothing(q.log, id, how);
  }

  lemma RepairedSays(q: Queue, nowMs: int, id: nat, how: How)
    requires q.fetches != [] && q.fetches[0].rx.rx.On?
    ensures Says(q.log, Repaired(q, nowMs).log, id, how, false)
  {
    hide Says, Requested, MissingFrom;
    RequestedSays(q, false, Head(MissingFrom(q.fetches[0].rx.rx.got, 0)), id, how);
    SaysNothing(q.log, id, how);
  }

  /** A pump whose head is not on the wire ends nothing. */
  lemma IdleSays(q: Queue, lim: Limits, nowMs: int, id: nat, how: How)
    requires q.fetches != [] ==> !OnWire(q.fetches[0])
    ensures Says(q.log, Pumped(q, lim, nowMs).log, id, how, false)
  {
    hide Says, Requested;
    SaysNothing(q.log, id, how);
    if q.fetches != [] {
      var r := q.(fetches := [q.fetches[0].(startMs := nowMs)] + q.fetches[1..]);
      RequestedSays(r, true, [], id, how);
    }
  }

  /** A pump ends the head, if its time is over, and nothing else. */
  lemma PumpedSays(q: Queue, lim: Limits, nowMs: int, id: nat, how: How)
    requires forall i :: 0 < i < |q.fetches| ==> !OnWire(q.fetches[i])
    ensures Says(q.log, Pumped(q, lim, nowMs).log, id, how, how == TimedOut && RunsOut(q, lim, nowMs, id))
  {
    hide Says, Requested, Repaired, Concluded;
    if q.fetches != [] && OnWire(q.fetches[0]) {
      if nowMs - q.fetches[0].startMs >= lim.timeoutMs {
        var r := Concluded(q, 0, TimedOut);
        ConcludedSays(q, 0, TimedOut, id, how);
        HeadGone(q, TimedOut);
        IdleSays(r, lim, nowMs, id, how);
        SaysMore(q.log, r.log, Pumped(r, lim, nowMs).log, id, how, q.fetches[0].id == id && how == TimedOut, false);
      } else {
        SaysNothing(q.log, id, how);
        if GapElapsed(q.fetches[0], lim, nowMs) {
          RepairedSays(q, nowMs, id, how);
        }
      }
    } else {
      IdleSays(q, lim, nowMs, id, how);
    }
  }

  lemma HeadGone(q: Queue, how: How)
    requires q.fetches != [] && forall i :: 0 < i < |q.fetches| ==> !OnWire(q.fetches[i])
    ensures Concluded(q, 0, how).fetches == q.fetches[1..]
    ensures Concluded(q, 0, how).fetches != [] ==> !OnWire(Concluded(q, 0, how).fetches[0])
  {
    DroppedAt(q.fetches, 0);
    assert Dropped(q.fetches, 0) == q.fetches[1..];
  }

  /** The head ends, and nothing after it does. */
  lemma HeadSays(q: Queue, how: How, lim: Limits, nowMs: int, id: nat, other: How)
    requires q.fetches != [] && Possible(q.fetches[0], how) && forall i :: 0 < i < |q.fetches| ==> !OnWire(q.fetches[i])
    ensures Says(q.log, Finished(q, 0, how, lim, nowMs).log, id, other, q.fetches[0].id == id && how == other)
  {
    hide Says, Concluded, Pumped;
    var r := Concluded(q, 0, how);
    ConcludedSays(q, 0, how, id, other);
    HeadGone(q, how);
    IdleSays(r, lim, nowMs, id, other);
    SaysMore(q.log, r.log, Pumped(r, lim, nowMs).log, id, other, q.fetches[0].id == id && how == other, false);
  }

  /** The socket's close ends every fetch in the queue. */
  lemma {:induction false} AllClosedSays(q: Queue, id: nat, how: How)
    ensures Says(q.log, AllClosed(q).log, id, how, how == SocketClosed && Queued(q, id))
    decreases |q.fetches|
  {
    hide Says, Concluded;
    if q.fetches == [] {
      SaysNothing(q.log, id, how);
    } else {
      var r := Concluded(q, 0, SocketClosed);
      ConcludedSays(q, 0, SocketClosed, id, how);
      FirstQueued(q, r, id);
      AllClosedSays(r, id, how);
      SaysMore(q.log, r.log, AllClosed(r).log, id, how, q.fetches[0].id == id && how == SocketClosed,
               how == SocketClosed && Queued(r, id));
    }
  }

  lemma FirstQueued(q: Queue, r: Queue, id: nat)
    requires q.fetches != [] && r == Concluded(q, 0, SocketClosed)
    ensures |r.fetches| < |q.fetches|
    ensures Queued(q, id) <==> q.fetches[0].id == id || Queued(r, id)
  {
    assert Dropped(q.fetches, 0) == q.fetches[1..];
    if Queued(q, id) && q.fetches[0].id != id {
      var i :| 0 <= i < |q.fetches| && q.fetches[i].id == id;
      assert r.fetches[i - 1].id == id;
    }
    if Queued(r, id) {
      var i :| 0 <= i < |r.fetches| && r.fetches[i].id == id;
      assert q.fetches[i + 1].id == id;
    }
  }

  // ---- events --------------------------------------------------------------------------------------

  lemma AskSays(q: Queue, lim: Limits, ev: Event, id: nat, how: How)
    requires Inv(q) && ev.Ask?
    ensures Says(q.log, Next(q, lim, ev).log, id, how, Brings(q, lim, ev, id, how))
  {
    hide Says, Pumped, Inv, RunsOut, OnWire;
    WireOne(q);
    if ev.target.ns == 0 || !q.open || !ev.known {
      SaysOther(q.log, Settled(q.next, Rejected, false, q.open), id, how);
    } else {
      var f := Fetch(q.next, ev.target, {}, 0, 0, Receiver(Off, None));
      var r := q.(next := q.next + 1, fetches := q.fetches + [f]);
      NotYet(f);
      PumpedSays(r, lim, ev.nowMs, id, how);
      Joins(q, r, f, lim, ev.nowMs, id);
    }
  }

  lemma NotYet(f: Fetch)
    requires f.seqs == {}
    ensures !OnWire(f)
  {
  }

  /** Only the head is on the wire. */
  lemma WireOne(q: Queue)
    requires Inv(q)
    ensures forall i :: 0 < i < |q.fetches| ==> !OnWire(q.fetches[i])
    ensures q.catalogInFlight && q.fetches != [] ==> !OnWire(q.fetches[0])
  {
    hide Accounted, Fifo;
  }

  lemma Joins(q: Queue, r: Queue, f: Fetch, lim: Limits, nowMs: int, id: nat)
    requires r.fetches == q.fetches + [f] && f.seqs == {}
    ensures RunsOut(r, lim, nowMs, id) <==> RunsOut(q, lim, nowMs, id)
  {
    if q.fetches != [] {
      assert r.fetches[0] == q.fetches[0];
    }
  }

  lemma CatalogSays(q: Queue, lim: Limits, ev: Event, id: nat, how: How)
    requires Inv(q) && ev.AskCatalog?
    ensures Says(q.log, Next(q, lim, ev).log, id, how, Brings(q, lim, ev, id, how))
  {
    hide Says, Finished, Inv;
    WireOne(q);
    var r, aborts := q.(catalogInFlight := true), q.fetches != [] && OnWire(q.fetches[0]);
    var t := if aborts then Finished(r, 0, Aborted, lim, ev.nowMs) else r;
    if aborts {
      HeadSays(r, Aborted, lim, ev.nowMs, id, how);
    } else {
      SaysNothing(q.log, id, how);
    }
    SaysOther(t.log, CatalogRequest, id, how);
    SaysNothing(t.log, id, how);
    SaysMore(q.log, t.log, Next(q, lim, ev).log, id, how, Brings(q, lim, ev, id, how), false);
  }

  lemma CancelSays(q: Queue, lim: Limits, ev: Event, id: nat, how: How)
    requires Inv(q) && ev.Cancel?
    ensures Says(q.log, Next(q, lim, ev).log, id, how, Brings(q, lim, ev, id, how))
  {
    hide Says, Pumped, Concluded, Inv, RunsOut;
    WireOne(q);
    Placed(q.fetches, ev.id);
    var i := IndexOf(q.fetches, ev.id);
    if i.None? {
      SaysNothing(q.log, id, how);
      NotOut(q, lim, ev.nowMs, id);
    } else {
      var r := Concluded(q, i.value, Aborted);
      ConcludedSays(q, i.value, Aborted, id, how);
      LeftWire(q, i.value, r, lim, ev.nowMs, id);
      PumpedSays(r, lim, ev.nowMs, id, how);
      SaysMore(q.log, r.log, Pumped(r, lim, ev.nowMs).log, id, how, ev.id == id && how == Aborted,
               how == TimedOut && RunsOut(r, lim, ev.nowMs, id));
    }
  }

  lemma NotOut(q: Queue, lim: Limits, nowMs: int, id: nat)
    ensures RunsOut(q, lim, nowMs, id) ==> Queued(q, id)
  {
  }

  lemma {:induction false} Placed(s: seq<Fetch>, id: nat)
    ensures IndexOf(s, id).Some? <==> exists i :: 0 <= i < |s| && s[i].id == id
    decreases |s|
  {
    if s != [] && s[0].id != id {
      Placed(s[1..], id);
      if IndexOf(s, id).None? {
        forall i | 0 <= i < |s|
          ensures s[i].id != id
        {
          if i > 0 {
            assert s[1..][i - 1].id != id;
          }
        }
      }
    }
  }

  /** What is left of the queue when one fetch has ended. */
  lemma LeftWire(q: Queue, i: nat, r: Queue, lim: Limits, nowMs: int, id: nat)
    requires Inv(q) && i < |q.fetches| && r == Concluded(q, i, Aborted)
    ensures forall k :: 0 < k < |r.fetches| ==> !OnWire(r.fetches[k])
    ensures RunsOut(r, lim, nowMs, id) <==> RunsOut(q, lim, nowMs, id) && q.fetches[i].id != id
  {
    hide Accounted, Fifo;
    DroppedAt(q.fetches, i);
  }

  lemma ArrivesSays(q: Queue, lim: Limits, ev: Event, id: nat, how: How)
    requires Inv(q) && ev.Arrives?
    ensures Says(q.log, Next(q, lim, ev).log, id, how, Brings(q, lim, ev, id, how))
  {
    hide Says, Finished, Inv, Blob.Received, Restarts, Begun, Belongs, Complete, Completes;
    WireOne(q);
    SaysNothing(q.log, id, how);
    var h := ev.h;
    CompletesIs(q, lim, h, id);
    if ForHead(q, h) {
      var f := q.fetches[0];
      if !(Restarts(f.rx, h) && h.total > lim.max) {
        var t := Transfer(lim, f.rx, h);
        var moved := (Restarts(f.rx, h) && t.On?) || Belongs(t, h);
        var g := f.(rx := Blob.Received(lim.max, f.target, f.rx, h), progressMs := if moved then ev.nowMs else f.progressMs);
        var r := q.(fetches := [g] + q.fetches[1..]);
        if Belongs(t, h) && Complete(g.rx.rx) {
          HeadSays(r, if ev.digestOk then Resolved else Mismatched, lim, ev.nowMs, id, how);
        }
      }
    }
  }

  /** A chunk completes the transfer exactly if it is the last the transfer lacks. */
  lemma CompletesIs(q: Queue, lim: Limits, h: Chunk, id: nat)
    ensures Completes(q, lim.max, h, id)
       <==> ForHead(q, h) && q.fetches[0].id == id && !(Restarts(q.fetches[0].rx, h) && h.total > lim.max)
            && Belongs(Transfer(lim, q.fetches[0].rx, h), h)
            && Complete(Blob.Received(lim.max, q.fetches[0].target, q.fetches[0].rx, h).rx)
  {
    hide Belongs, Complete, Inserted, Begun;
    if ForHead(q, h) {
      var r := q.fetches[0].rx;
      if !Restarts(r, h) {
        InsertCompletes(r.rx, h);
      } else if h.total <= lim.max {
        BeginCompletes(lim.max, h);
      }
    }
  }

  lemma InsertCompletes(rx: Rx, h: Chunk)
    requires rx.On? && |rx.got| == h.count && h.index < h.count
    ensures Belongs(rx, h) && Complete(Inserted(rx, h))
       <==> rx.target == h.target && 192 * h.index + |h.bytes| <= |rx.buf| && forall i :: 0 <= i < h.count && i != h.index ==> rx.got[i]
  {
    hide CountTrue;
    if Belongs(rx, h) {
      var got := Inserted(rx, h).got;
      AllTrue(got);
      LastOne(rx.got, h.index, got);
    }
  }

  lemma BeginCompletes(max: nat, h: Chunk)
    requires h.index < h.count && h.total <= max
    ensures Begun(max, h).Off? || Begun(max, h).On?
    ensures Belongs(Begun(max, h), h) && Complete(Inserted(Begun(max, h), h)) <==> 0 < h.total && h.count == 1 && |h.bytes| <= h.total
    ensures Begun(max, h).On? <==> 0 < h.total
    ensures Begun(max, h).Off? ==> !Belongs(Begun(max, h), h) && !Complete(Off)
  {
    hide CountTrue, Belongs, Inserted, Complete;
    if 0 < h.total {
      InsertCompletes(Begun(max, h), h);
      if h.count > 1 {
        assert !NoneIn(h.count)[if h.index == 0 then 1 else 0];
      }
    } else {
      OffNever(h);
    }
    OffNever(h);
  }

  lemma OffNever(h: Chunk)
    ensures !Belongs(Off, h) && !Complete(Off)
  {
  }

  lemma LastOne(got: seq<bool>, k: nat, after: seq<bool>)
    requires k < |got| && after == got[k := true]
    ensures (forall i :: 0 <= i < |after| ==> after[i]) <==> forall i :: 0 <= i < |got| && i != k ==> got[i]
  {
    assert forall i :: 0 <= i < |got| ==> after[i] == (got[i] || i == k);
  }

  /** Every event says of each end exactly what it brings. */
  lemma NextSays(q: Queue, lim: Limits, ev: Event, id: nat, how: How)
    requires Inv(q)
    ensures Says(q.log, Next(q, lim, ev).log, id, how, Brings(q, lim, ev, id, how))
  {
    hide Says, Inv, Pumped, Concluded, AllClosed, Completes, RunsOut;
    SaysNothing(q.log, id, how);
    WireOne(q);
    match ev
    case Ask(_, _, _) => AskSays(q, lim, ev, id, how);
    case AskCatalog(_) => CatalogSays(q, lim, ev, id, how);
    case Tick(nowMs) => PumpedSays(q, lim, nowMs, id, how);
    case Arrives(_, _, _) => ArrivesSays(q, lim, ev, id, how);
    case Refusal(seqno, nowMs) =>
      if q.fetches != [] && seqno in q.fetches[0].seqs {
        HeadSays(q, Nacked, lim, nowMs, id, how);
      }
    case Cancel(_, _) => CancelSays(q, lim, ev, id, how);
    case Closes =>
      AllClosedSays(q.(open := false), id, how);
      assert Queued(q.(open := false), id) <==> Queued(q, id);
    case _ =>
  }

  // ---- runs ------------------------------------------------------------------------------------------

  /** Event `k` of the run ends the fetch in this way. */
  ghost predicate BringsAt(lim: Limits, evs: seq<Event>, k: nat, id: nat, how: How)
    requires k < |evs|
  {
    Brings(Run(lim, evs[..k]), lim, evs[k], id, how)
  }

  /**
   * In every run a fetch is settled in each way if and only if an event brought that end: resolved by the
   * chunk that completed it with its digest right, mismatched by one that completed it with its digest
   * wrong, nacked, aborted, timed out, rejected or closed by the event of that name.
   */
  lemma {:induction false} EndsBecause(lim: Limits, evs: seq<Event>, id: nat, how: How)
    ensures Ends(Run(lim, evs).log, id, how) <==> exists k :: 0 <= k < |evs| && BringsAt(lim, evs, k, id, how)
    decreases |evs|
  {
    hide Inv, Next, Brings;
    if evs != [] {
      var n := |evs| - 1;
      var before := evs[..n];
      EndsBecause(lim, before, id, how);
      RunInv(lim, before);
      NextSays(Run(lim, before), lim, evs[n], id, how);
      forall k | 0 <= k < n
        ensures BringsAt(lim, before, k, id, how) <==> BringsAt(lim, evs, k, id, how)
      {
        assert before[..k] == evs[..k];
      }
      assert BringsAt(lim, evs, n, id, how) <==> Brings(Run(lim, before), lim, evs[n], id, how);
    }
  }

  /**
   * In every run each BLOB_DONE goes out as its fetch ends, open and on the wire, and says how: verified
   * if it was resolved, a hash mismatch if it was mismatched, given up if it was timed out or aborted; and
   * every such end sends its own.
   */
  lemma {:induction false} RunTold(lim: Limits, evs: seq<Event>)
    ensures Told(Run(lim, evs).log)
    decreases |evs|
  {
    hide Inv, Next, Brings, Told;
    if evs == [] {
      assert Told([]) by { ToldNothing(); }
    } else {
      var n := |evs| - 1;
      RunTold(lim, evs[..n]);
      RunInv(lim, evs[..n]);
      NextSays(Run(lim, evs[..n]), lim, evs[n], 0, Rejected);
    }
  }

  lemma ToldNothing()
    ensures Told([])
  {
  }

  // ---- a tick of the clock ---------------------------------------------------------------------------

  /** The first chunks not in, in order: all of them, or 32. */
  ghost predicate FirstMissing(got: seq<bool>, ks: seq<nat>) {
    && |ks| <= 32 && (forall a, b :: 0 <= a < b < |ks| ==> ks[a] < ks[b])
    && (forall k :: k in ks ==> k < |got| && !got[k])
    && (forall k: nat :: k < |got| && !got[k] && k !in ks ==> |ks| == 32 && ks[31] < k)
  }

  lemma HeadIsFirst(got: seq<bool>)
    ensures FirstMissing(got, Head(MissingFrom(got, 0)))
  {
    var all := MissingFrom(got, 0);
    MissingAscends(got, 0);
    forall k: nat
      ensures k in all <==> k < |got| && !got[k]
    {
      MissingHas(got, 0, k);
    }
    forall k | k in Head(all)
      ensures k in all
    {
    }
    forall k: nat | k in all && k !in Head(all)
      ensures |all| > 32 && all[31] < k
    {
      HeadTail(all, k);
      var i :| 0 <= i < |Tail(all)| && Tail(all)[i] == k;
      assert all[32 + i] == k;
    }
  }

  /** A transfer under way that lacks chunks and has not moved for its gap. */
  ghost predicate Stalls(f: Fetch, lim: Limits, nowMs: int) {
    f.rx.rx.On? && nowMs - f.progressMs >= lim.gapMs && exists i :: 0 <= i < |f.rx.rx.got| && !f.rx.rx.got[i]
  }

  lemma StallsIs(f: Fetch, lim: Limits, nowMs: int)
    ensures Stalls(f, lim, nowMs) <==> GapElapsed(f, lim, nowMs)
    ensures f.rx.rx.On? ==> (MissingFrom(f.rx.rx.got, 0) == [] <==> forall i :: 0 <= i < |f.rx.rx.got| ==> f.rx.rx.got[i])
  {
    if f.rx.rx.On? {
      NothingMissing(f.rx.rx.got);
      AllTrue(f.rx.rx.got);
    }
  }

  /**
   * A tick starts the head if it may go on the wire, or asks again for the first 32 chunks of a transfer that
   * stalls before its time is over; otherwise, before that time, it does nothing.
   */
  lemma TickDoes(q: Queue, lim: Limits, nowMs: int)
    requires q.fetches != [] && (q.fetches[0].seqs != {} ==> nowMs - q.fetches[0].startMs < lim.timeoutMs)
    ensures var t, f, n := Next(q, lim, Tick(nowMs)), q.fetches[0], q.intentSeq % 65535 + 1;
            if f.seqs == {} && q.open && !q.catalogInFlight then
              t == q.(intentSeq := n, fetches := [f.(startMs := nowMs, seqs := {n})] + q.fetches[1..],
                      log := q.log + [Request(f.id, n, true, [])])
            else if f.seqs != {} && Stalls(f, lim, nowMs) then
              exists ks :: FirstMissing(f.rx.rx.got, ks)
                && t == q.(intentSeq := n, fetches := [f.(progressMs := nowMs, seqs := f.seqs + {n})] + q.fetches[1..],
                           log := if q.open then q.log + [Request(f.id, n, false, ks)] else q.log)
            else t == q
  {
    hide GapElapsed, MissingFrom, FirstMissing, Stalls;
    var f, n := q.fetches[0], q.intentSeq % 65535 + 1;
    StallsIs(f, lim, nowMs);
    if f.seqs != {} && Stalls(f, lim, nowMs) {
      Lacks(f, lim, nowMs);
      var ks := Head(MissingFrom(f.rx.rx.got, 0));
      HeadIsFirst(f.rx.rx.got);
      var r := Requested(q, false, ks);
      assert r.fetches[0] == f.(seqs := f.seqs + {n}) && r.fetches[1..] == q.fetches[1..];
    } else if f.seqs == {} {
      var g := f.(startMs := nowMs);
      var r := q.(fetches := [g] + q.fetches[1..]);
      assert r.fetches[0] == g && r.fetches[1..] == q.fetches[1..];
      assert {} + {n} == {n};
    }
  }

  lemma Lacks(f: Fetch, lim: Limits, nowMs: int)
    requires Stalls(f, lim, nowMs)
    ensures f.rx.rx.On? && !(forall i :: 0 <= i < |f.rx.rx.got| ==> f.rx.rx.got[i])
  {
  }

  // ---- one chunk -------------------------------------------------------------------------------------

  lemma {:induction false} PumpedGrows(q: Queue, lim: Limits, nowMs: int)
    ensures q.log <= Pumped(q, lim, nowMs).log
    decreases |q.fetches|
  {
    hide MissingFrom;
    if q.fetches != [] && OnWire(q.fetches[0]) && nowMs - q.fetches[0].startMs >= lim.timeoutMs {
      PumpedGrows(Concluded(q, 0, TimedOut), lim, nowMs);
    }
  }

  /** What is said when the fetch's last chunk comes. */
  function Verdict(id: nat, open: bool, digestOk: bool): seq<Out> {
    (if open then [Done(id, if digestOk then VerifiedComplete else HashMismatch)] else [])
    + [Settled(id, if digestOk then Resolved else Mismatched, true, open)]
  }

  /** A chunk that completes the head's transfer has its verdict said next, and any other chunk has nothing said. */
  lemma ArrivedSays(q: Queue, lim: Limits, h: Chunk, nowMs: int, digestOk: bool)
    ensures var t := ChunkArrived(q, lim, h, nowMs, digestOk);
            if q.fetches != [] && Completes(q, lim.max, h, q.fetches[0].id)
            then q.log + Verdict(q.fetches[0].id, q.open, digestOk) <= t.log
            else t.log == q.log
  {
    hide Pumped, Blob.Received, Restarts, Begun, Belongs, Complete, Completes;
    if ForHead(q, h) {
      var f := q.fetches[0];
      CompletesIs(q, lim, h, f.id);
      if !(Restarts(f.rx, h) && h.total > lim.max) {
        var t := Transfer(lim, f.rx, h);
        var moved := (Restarts(f.rx, h) && t.On?) || Belongs(t, h);
        var g := f.(rx := Blob.Received(lim.max, f.target, f.rx, h), progressMs := if moved then nowMs else f.progressMs);
        var r := q.(fetches := [g] + q.fetches[1..]);
        if Belongs(t, h) && Complete(g.rx.rx) {
          PumpedGrows(Concluded(r, 0, if digestOk then Resolved else Mismatched), lim, nowMs);
          ConcludedVerdict(r, digestOk);
        }
      }
    } else if q.fetches != [] {
      CompletesIs(q, lim, h, q.fetches[0].id);
    }
  }

  lemma ConcludedVerdict(r: Queue, digestOk: bool)
    requires r.fetches != [] && OnWire(r.fetches[0])
    ensures Concluded(r, 0, if digestOk then Resolved else Mismatched).log == r.log + Verdict(r.fetches[0].id, r.open, digestOk)
  {
    hide Dropped;
  }

  // ---- the socket --------------------------------------------------------------------------------------

  /** The chunk is for the head, and would begin a transfer of more than the client takes. */
  ghost predicate TooBig(q: Queue, max: nat, h: Chunk) {
    && q.fetches != [] && q.fetches[0].seqs != {} && h.target == q.fetches[0].target && h.index < h.count && h.total > max
    && var r := q.fetches[0].rx;
       !(r.rx.On? && |r.rx.got| == h.count && r.rx.total == h.total && r.generation == Some(h.generation))
  }

  lemma {:induction false} PumpedOpen(q: Queue, lim: Limits, nowMs: int)
    ensures Pumped(q, lim, nowMs).open == q.open
    decreases |q.fetches|
  {
    hide MissingFrom;
    if q.fetches != [] && OnWire(q.fetches[0]) && nowMs - q.fetches[0].startMs >= lim.timeoutMs {
      PumpedOpen(Concluded(q, 0, TimedOut), lim, nowMs);
    }
  }

  lemma FinishedOpen(q: Queue, i: nat, how: How, lim: Limits, nowMs: int)
    requires i < |q.fetches|
    ensures Finished(q, i, how, lim, nowMs).open == q.open
  {
    hide Pumped;
    PumpedOpen(Concluded(q, i, how), lim, nowMs);
  }

  lemma {:induction false} AllClosedOpen(q: Queue)
    ensures AllClosed(q).open == q.open
    decreases |q.fetches|
  {
    if q.fetches != [] {
      FirstQueued(q, Concluded(q, 0, SocketClosed), 0);
      AllClosedOpen(Concluded(q, 0, SocketClosed));
    }
  }

  /** The session gives its socket up on a store chunk that begins too big a transfer, and does nothing else with it. */
  lemma NextOpen(q: Queue, lim: Limits, ev: Event)
    ensures Next(q, lim, ev).open
       <==> ev.Opens? || (q.open && !ev.Falters? && !ev.Closes? && !(ev.Arrives? && TooBig(q, lim.max, ev.h)))
    ensures ev.Arrives? && TooBig(q, lim.max, ev.h) ==> Next(q, lim, ev) == q.(open := false)
  {
    hide Pumped, Finished, AllClosed, Blob.Received, Belongs, Complete, Begun;
    match ev
    case Ask(target, known, nowMs) =>
      var f := Fetch(q.next, target, {}, 0, 0, Receiver(Off, None));
      PumpedOpen(q.(next := q.next + 1, fetches := q.fetches + [f]), lim, nowMs);
    case AskCatalog(nowMs) =>
      if q.fetches != [] {
        FinishedOpen(q.(catalogInFlight := true), 0, Aborted, lim, nowMs);
      }
    case Tick(nowMs) => PumpedOpen(q, lim, nowMs);
    case Arrives(h, nowMs, digestOk) => ArrivedOpen(q, lim, h, nowMs, digestOk);
    case Refusal(_, nowMs) =>
      if q.fetches != [] {
        FinishedOpen(q, 0, Nacked, lim, nowMs);
      }
    case Cancel(id, nowMs) =>
      var i := IndexOf(q.fetches, id);
      if i.Some? {
        FinishedOpen(q, i.value, Aborted, lim, nowMs);
      }
    case Closes => AllClosedOpen(q.(open := false));
    case _ =>
  }

  lemma ArrivedOpen(q: Queue, lim: Limits, h: Chunk, nowMs: int, digestOk: bool)
    ensures var t := ChunkArrived(q, lim, h, nowMs, digestOk);
            if TooBig(q, lim.max, h) then t == q.(open := false) else t.open == q.open
  {
    hide Finished, Blob.Received, Belongs, Complete, Begun;
    if ForHead(q, h) && !TooBig(q, lim.max, h) {
      var f := q.fetches[0];
      var t := Transfer(lim, f.rx, h);
      var moved := (Restarts(f.rx, h) && t.On?) || Belongs(t, h);
      var g := f.(rx := Blob.Received(lim.max, f.target, f.rx, h), progressMs := if moved then nowMs else f.progressMs);
      FinishedOpen(q.(fetches := [g] + q.fetches[1..]), 0, if digestOk then Resolved else Mismatched, lim, nowMs);
    }
  }

}
