/**
 * The client's store fetches (clients/js/session.js): one transfer on the wire at a time, first
 * come first served, and never beside the catalog's.
 */
module FetchQueue {
  import opened Bytes
  import opened Blob

  // ---- the queue ---------------------------------------------------------------------------

  /** A queued fetch; it is on the wire once a request of it has gone out. */
  datatype Fetch = Fetch(id: nat, target: Target, seqs: set<nat>, startMs: int, progressMs: int, rx: Receiver)

  /** How a fetch came to its end. */
  datatype How = Rejected | Resolved | Mismatched | Aborted | TimedOut | Nacked | SocketClosed

  datatype Status = VerifiedComplete | HashMismatch | GivenUp

  /** What the queue sends and settles, in order. */
  datatype Out =
    | Request(id: nat, seqno: nat, first: bool, chunks: seq<nat>)
    | Done(id: nat, status: Status)
    | Settled(id: nat, how: How, onWire: bool, open: bool)
    | CatalogRequest

  /** `next` is the number the next fetch gets; `open` is whether the socket takes frames. */
  datatype Queue = Queue(
    fetches: seq<Fetch>, catalogInFlight: bool, open: bool, intentSeq: nat, next: nat, log: seq<Out>)

  /** What bounds a fetch. */
  datatype Limits = Limits(max: nat, gapMs: int, timeoutMs: int)

  function Logged(q: Queue, o: Out): Queue {
    q.(log := q.log + [o])
  }

  predicate OnWire(f: Fetch) {
    f.seqs != {}
  }

  /** The BLOB_DONE a fetch owes, if it owes one. */
  function Owes(how: How, onWire: bool): Option<Status> {
    match how
    case Resolved => Some(VerifiedComplete)
    case Mismatched => Some(HashMismatch)
    case TimedOut => Some(GivenUp)
    case Aborted => if onWire then Some(GivenUp) else None
    case _ => None
  }

  // ---- steps -----------------------------------------------------------------------------------

  function NextSeq(n: nat): nat {
    n % 0xffff + 1
  }

  /** `sendStoreReq` for the head. */
  function Requested(q: Queue, first: bool, chunks: seq<nat>): Queue
    requires q.fetches != []
  {
    var f, n := q.fetches[0], NextSeq(q.intentSeq);
    var r := q.(intentSeq := n, fetches := [f.(seqs := f.seqs + {n})] + q.fetches[1..]);
    if q.open then Logged(r, Request(f.id, n, first, chunks)) else r
  }

  /** The head, its clock started. */
  function Started(q: Queue, nowMs: int): Queue
    requires q.fetches != []
  {
    Requested(q.(fetches := [q.fetches[0].(startMs := nowMs)] + q.fetches[1..]), true, [])
  }

  function Dropped(s: seq<Fetch>, i: nat): seq<Fetch>
    requires i < |s|
  {
    s[..i] + s[i + 1..]
  }

  /** `finishFetch` without the pump: out of the queue, reported, settled. */
  function Concluded(q: Queue, i: nat, how: How): Queue
    requires i < |q.fetches|
  {
    var f := q.fetches[i];
    var due := Owes(how, OnWire(f));
    var r := q.(fetches := Dropped(q.fetches, i));
    Logged(if due.Some? && q.open then Logged(r, Done(f.id, due.value)) else r, Settled(f.id, how, OnWire(f), q.open))
  }

  predicate GapElapsed(f: Fetch, lim: Limits, nowMs: int) {
    f.rx.rx.On? && !Complete(f.rx.rx) && nowMs - f.progressMs >= lim.gapMs
  }

  /** A repair of at most 32 chunks. */
  function Repaired(q: Queue, nowMs: int): Queue
    requires q.fetches != [] && q.fetches[0].rx.rx.On?
  {
    var missing := MissingFrom(q.fetches[0].rx.rx.got, 0);
    if missing == [] then q
    else
      var r := Requested(q, false, Head(missing));
      r.(fetches := [r.fetches[0].(progressMs := nowMs)] + r.fetches[1..])
  }

  /** `pumpStoreFetch`. */
  function Pumped(q: Queue, lim: Limits, nowMs: int): Queue
    decreases |q.fetches|
  {
    if q.fetches == [] then q
    else
      var f := q.fetches[0];
      if !OnWire(f) then (if q.catalogInFlight || !q.open then q else Started(q, nowMs))
      else if nowMs - f.startMs >= lim.timeoutMs then Pumped(Concluded(q, 0, TimedOut), lim, nowMs)
      else if GapElapsed(f, lim, nowMs) then Repaired(q, nowMs)
      else q
  }

  /** `finishFetch`. */
  function Finished(q: Queue, i: nat, how: How, lim: Limits, nowMs: int): Queue
    requires i < |q.fetches|
  {
    Pumped(Concluded(q, i, how), lim, nowMs)
  }

  /** Where a fetch stands in the queue. */
  function IndexOf(s: seq<Fetch>, id: nat): (r: Option<nat>)
    ensures r.Some? ==> r.value < |s| && s[r.value].id == id
  {
    if s == [] then None
    else if s[0].id == id then Some(0)
    else
      var r := IndexOf(s[1..], id);
      if r.Some? then Some(r.value + 1) else None
  }

  /** The chunk is for the head, which is on the wire. */
  predicate ForHead(q: Queue, h: Chunk) {
    && q.fetches != [] && OnWire(q.fetches[0]) && h.target == q.fetches[0].target
    && h.count > 0 && h.index < h.count
  }

  function Transfer(lim: Limits, r: Receiver, h: Chunk): Rx {
    if Restarts(r, h) then Begun(lim.max, h) else r.rx
  }

  datatype Event =
    | Ask(target: Target, known: bool, nowMs: int)
    | AskCatalog(nowMs: int)
    | CatalogEnds
    | Tick(nowMs: int)
    | Arrives(h: Chunk, nowMs: int, digestOk: bool)
    | Refusal(seqno: nat, nowMs: int)
    | Cancel(id: nat, nowMs: int)
    | IntentSent
    | Opens
    | Falters
    | Closes

  /** `fetchBlob`: refused at once, or queued and pumped. */
  function Asked(q: Queue, lim: Limits, target: Target, known: bool, nowMs: int): Queue {
    var r := q.(next := q.next + 1);
    if target.ns == 0 || !q.open || !known then Logged(r, Settled(q.next, Rejected, false, q.open))
    else
      var f := Fetch(q.next, target, {}, 0, 0, Receiver(Off, None));
      Pumped(r.(fetches := q.fetches + [f]), lim, nowMs)
  }

  /** `requestCatalog`: the catalog takes the cursor; a store fetch on the wire is aborted. */
  function CatalogAsked(q: Queue, lim: Limits, nowMs: int): Queue {
    var r := q.(catalogInFlight := true);
    var s := if r.fetches != [] && OnWire(r.fetches[0]) then Finished(r, 0, Aborted, lim, nowMs) else r;
    if q.open then Logged(s, CatalogRequest) else s
  }

  /** `handleStoreChunk`. */
  function ChunkArrived(q: Queue, lim: Limits, h: Chunk, nowMs: int, digestOk: bool): Queue {
    if !ForHead(q, h) then q
    else
      var f := q.fetches[0];
      if Restarts(f.rx, h) && h.total > lim.max then q.(open := false) // refused: the session closes
      else
        var t := Transfer(lim, f.rx, h);
        var moved := (Restarts(f.rx, h) && t.On?) || Belongs(t, h);
        var g := f.(rx := Received(lim.max, f.target, f.rx, h), progressMs := if moved then nowMs else f.progressMs);
        var r := q.(fetches := [g] + q.fetches[1..]);
        if Belongs(t, h) && Complete(g.rx.rx) then Finished(r, 0, if digestOk then Resolved else Mismatched, lim, nowMs)
        else r
  }

  /** Every fetch rejected, in queue order. */
  function AllClosed(q: Queue): Queue
    decreases |q.fetches|
  {
    if q.fetches == [] then q else AllClosed(Concluded(q, 0, SocketClosed))
  }

  function Next(q: Queue, lim: Limits, ev: Event): Queue {
    match ev
    case Ask(target, known, nowMs) => Asked(q, lim, target, known, nowMs)
    case AskCatalog(nowMs) => CatalogAsked(q, lim, nowMs)
    case CatalogEnds => q.(catalogInFlight := false)
    case Tick(nowMs) => Pumped(q, lim, nowMs)
    case Arrives(h, nowMs, digestOk) => ChunkArrived(q, lim, h, nowMs, digestOk)
    case Refusal(seqno, nowMs) =>
      if q.fetches != [] && seqno in q.fetches[0].seqs then Finished(q, 0, Nacked, lim, nowMs) else q
    case Cancel(id, nowMs) =>
      var i := IndexOf(q.fetches, id);
      if i.Some? then Finished(q, i.value, Aborted, lim, nowMs) else q
    case IntentSent => q.(intentSeq := NextSeq(q.intentSeq))
    case Opens => q.(open := true)
    case Falters => q.(open := false)
    case Closes => AllClosed(q.(open := false)).(catalogInFlight := false)
  }

  const EMPTY := Queue([], false, false, 0, 0, [])

  function Run(lim: Limits, evs: seq<Event>): Queue
    decreases |evs|
  {
    if evs == [] then EMPTY else Next(Run(lim, evs[..|evs| - 1]), lim, evs[|evs| - 1])
  }

  // ---- what every state keeps ---------------------------------------------------------------------

  /** Queued in the order they were asked for. */
  ghost predicate InOrder(q: Queue) {
    && (forall i, j :: 0 <= i < j < |q.fetches| ==> q.fetches[i].id < q.fetches[j].id)
    && (forall i :: 0 <= i < |q.fetches| ==> q.fetches[i].id < q.next)
  }

  /** Only the head is on the wire, and it is not while the catalog owns the cursor. */
  ghost predicate OneTransfer(q: Queue) {
    && (forall i :: 0 < i < |q.fetches| ==> !OnWire(q.fetches[i]))
    && (q.catalogInFlight && q.fetches != [] ==> !OnWire(q.fetches[0]))
  }

  function SettledCount(log: seq<Out>, id: nat): nat
    decreases |log|
  {
    if log == [] then 0
    else
      var o := log[|log| - 1];
      SettledCount(log[..|log| - 1], id) + (if o.Settled? && o.id == id then 1 else 0)
  }

  function DoneCount(log: seq<Out>, id: nat): nat
    decreases |log|
  {
    if log == [] then 0
    else
      var o := log[|log| - 1];
      DoneCount(log[..|log| - 1], id) + (if o.Done? && o.id == id then 1 else 0)
  }

  /** An end of a fetch on the wire that the hub has not heard of, while the socket is open. */
  predicate Unheard(o: Out) {
    o.Settled? && o.onWire && o.open && o.how != Nacked && o.how != SocketClosed
  }

  /** How many ends of the fetch the hub has not heard of. */
  function UnheardCount(log: seq<Out>, id: nat): nat
    decreases |log|
  {
    if log == [] then 0
    else
      var o := log[|log| - 1];
      UnheardCount(log[..|log| - 1], id) + (if Unheard(o) && o.id == id then 1 else 0)
  }

  predicate Queued(q: Queue, id: nat) {
    exists i :: 0 <= i < |q.fetches| && q.fetches[i].id == id
  }

  /** Every fetch asked for is queued or settled, once; each end the hub has not heard of sends one BLOB_DONE. */
  ghost predicate Accounted(q: Queue) {
    forall id: nat ::
      && SettledCount(q.log, id) == (if id < q.next && !Queued(q, id) then 1 else 0)
      && DoneCount(q.log, id) == UnheardCount(q.log, id)
  }

  /** The fetches in the order their first request went out. */
  function Starts(log: seq<Out>): seq<nat>
    decreases |log|
  {
    if log == [] then []
    else
      var o := log[|log| - 1];
      Starts(log[..|log| - 1]) + (if o.Request? && o.first then [o.id] else [])
  }

  /** First requests go out in the order of asking, and before those still waiting. */
  ghost predicate Fifo(q: Queue) {
    && (forall a, b :: 0 <= a < b < |Starts(q.log)| ==> Starts(q.log)[a] < Starts(q.log)[b])
    && (forall a, i :: 0 <= a < |Starts(q.log)| && 0 <= i < |q.fetches| && !OnWire(q.fetches[i]) ==>
          Starts(q.log)[a] < q.fetches[i].id)
    && (forall a :: 0 <= a < |Starts(q.log)| ==> Starts(q.log)[a] < q.next)
  }

  ghost predicate Inv(q: Queue) {
    InOrder(q) && OneTransfer(q) && Accounted(q) && Fifo(q)
  }

  lemma LoggedCounts(log: seq<Out>, o: Out, id: nat)
    ensures SettledCount(log + [o], id) == SettledCount(log, id) + (if o.Settled? && o.id == id then 1 else 0)
    ensures DoneCount(log + [o], id) == DoneCount(log, id) + (if o.Done? && o.id == id then 1 else 0)
    ensures UnheardCount(log + [o], id) == UnheardCount(log, id) + (if Unheard(o) && o.id == id then 1 else 0)
    ensures Starts(log + [o]) == Starts(log) + (if o.Request? && o.first then [o.id] else [])
  {
    assert (log + [o])[..|log|] == log;
  }

  lemma DroppedAt(s: seq<Fetch>, i: nat)
    requires i < |s|
    ensures |Dropped(s, i)| == |s| - 1
    ensures forall k :: 0 <= k < |s| - 1 ==> Dropped(s, i)[k] == s[if k < i then k else k + 1]
  {
  }

  lemma DroppedQueued(q: Queue, i: nat, r: Queue, id: nat)
    requires InOrder(q) && i < |q.fetches| && r.fetches == Dropped(q.fetches, i)
    ensures Queued(r, id) <==> Queued(q, id) && id != q.fetches[i].id
  {
    DroppedAt(q.fetches, i);
    if Queued(q, id) && id != q.fetches[i].id {
      var k :| 0 <= k < |q.fetches| && q.fetches[k].id == id;
      assert r.fetches[if k < i then k else k - 1].id == id;
    }
    if Queued(r, id) {
      var k :| 0 <= k < |r.fetches| && r.fetches[k].id == id;
      assert q.fetches[if k < i then k else k + 1].id == id;
    }
  }

  /** The log after a fetch is concluded. */
  function Reported(log: seq<Out>, f: Fetch, how: How, open: bool): seq<Out> {
    var due := Owes(how, OnWire(f));
    (if due.Some? && open then log + [Done(f.id, due.value)] else log) + [Settled(f.id, how, OnWire(f), open)]
  }

  /** Only a fetch on the wire is resolved, mismatched or timed out, and only one never queued is rejected. */
  predicate Possible(f: Fetch, how: How) {
    how != Rejected && (how == Resolved || how == Mismatched || how == TimedOut ==> OnWire(f))
  }

  lemma ConcludedLog(q: Queue, i: nat, how: How, id: nat)
    requires i < |q.fetches| && Possible(q.fetches[i], how)
    ensures var f, r := q.fetches[i], Concluded(q, i, how);
            && r.log == Reported(q.log, f, how, q.open)
            && SettledCount(r.log, id) == SettledCount(q.log, id) + (if id == f.id then 1 else 0)
            && DoneCount(r.log, id) - UnheardCount(r.log, id) == DoneCount(q.log, id) - UnheardCount(q.log, id)
            && Starts(r.log) == Starts(q.log)
  {
    hide SettledCount, DoneCount, UnheardCount, Starts, OnWire;
    var f := q.fetches[i];
    var due := Owes(how, OnWire(f));
    var mid := if due.Some? && q.open then q.log + [Done(f.id, due.value)] else q.log;
    if due.Some? && q.open {
      LoggedCounts(q.log, Done(f.id, due.value), id);
      assert Starts(q.log) + [] == Starts(q.log);
    }
    LoggedCounts(mid, Settled(f.id, how, OnWire(f), q.open), id);
    assert Starts(mid) + [] == Starts(mid);
  }

  lemma ConcludedInv(q: Queue, i: nat, how: How)
    requires Inv(q) && i < |q.fetches| && Possible(q.fetches[i], how)
    ensures Inv(Concluded(q, i, how)) && |Concluded(q, i, how).fetches| == |q.fetches| - 1
    ensures Concluded(q, i, how).catalogInFlight == q.catalogInFlight && Concluded(q, i, how).next == q.next
  {
    hide Reported, SettledCount, DoneCount, UnheardCount, Starts, OnWire;
    var r := Concluded(q, i, how);
    DroppedAt(q.fetches, i);
    ConcludedLog(q, i, how, 0);
    forall id: nat
      ensures SettledCount(r.log, id) == (if id < r.next && !Queued(r, id) then 1 else 0)
      ensures DoneCount(r.log, id) == UnheardCount(r.log, id)
    {
      ConcludedLog(q, i, how, id);
      DroppedQueued(q, i, r, id);
      if id == q.fetches[i].id {
        assert Queued(q, id);
      }
    }
  }

  lemma RequestedInv(q: Queue, first: bool, chunks: seq<nat>)
    requires Inv(q) && q.fetches != [] && q.open && !q.catalogInFlight && first == !OnWire(q.fetches[0])
    ensures Inv(Requested(q, first, chunks)) && Requested(q, first, chunks).fetches != []
  {
    hide SettledCount, DoneCount, UnheardCount, Starts;
    var f, r := q.fetches[0], Requested(q, first, chunks);
    var o := Request(f.id, NextSeq(q.intentSeq), first, chunks);
    forall id: nat
      ensures SettledCount(r.log, id) == (if id < r.next && !Queued(r, id) then 1 else 0)
      ensures DoneCount(r.log, id) == UnheardCount(r.log, id)
    {
      LoggedCounts(q.log, o, id);
      HeadQueued(q, r, id);
    }
    assert OnWire(r.fetches[0]) by { assert NextSeq(q.intentSeq) in r.fetches[0].seqs; }
    LoggedCounts(q.log, o, 0);
  }

  /** Only the head of the queue changed, and not its number. */
  lemma HeadQueued(q: Queue, r: Queue, id: nat)
    requires q.fetches != [] && r.fetches != [] && r.fetches[0].id == q.fetches[0].id && r.fetches[1..] == q.fetches[1..]
    ensures Queued(r, id) <==> Queued(q, id)
  {
    SameIds(q.fetches, r.fetches);
  }

  lemma SameIds(s: seq<Fetch>, t: seq<Fetch>)
    requires s != [] && t != [] && t[0].id == s[0].id && t[1..] == s[1..]
    ensures |s| == |t| && forall i :: 0 <= i < |s| ==> t[i].id == s[i].id
  {
    assert |s[1..]| == |t[1..]|;
    forall i | 0 < i < |s|
      ensures t[i] == s[i]
    {
      assert s[1..][i - 1] == t[1..][i - 1];
    }
  }

  /** Changing what the head has received, or its clocks, keeps everything. */
  lemma HeadTouched(q: Queue, f: Fetch)
    requires Inv(q) && q.fetches != [] && f.id == q.fetches[0].id && f.seqs == q.fetches[0].seqs
    ensures Inv(q.(fetches := [f] + q.fetches[1..]))
  {
    hide SettledCount, DoneCount, UnheardCount, Starts;
    var r := q.(fetches := [f] + q.fetches[1..]);
    forall id: nat
      ensures Queued(r, id) <==> Queued(q, id)
    {
      HeadQueued(q, r, id);
    }
  }

  lemma RepairedInv(q: Queue, nowMs: int)
    requires Inv(q) && q.fetches != [] && OnWire(q.fetches[0]) && q.fetches[0].rx.rx.On?
    ensures Inv(Repaired(q, nowMs))
  {
    hide Inv, Requested;
    var missing := MissingFrom(q.fetches[0].rx.rx.got, 0);
    if missing != [] {
      var r := Requested(q, false, Head(missing));
      NotInFlight(q);
      if q.open {
        RequestedInv(q, false, Head(missing));
      } else {
        SilentInv(q, false, Head(missing));
      }
      HeadTouched(r, r.fetches[0].(progressMs := nowMs));
    }
  }

  lemma NotInFlight(q: Queue)
    requires Inv(q) && q.fetches != [] && OnWire(q.fetches[0])
    ensures !q.catalogInFlight
  {
  }

  /** A repair a closed socket does not take. */
  lemma SilentInv(q: Queue, first: bool, chunks: seq<nat>)
    requires Inv(q) && q.fetches != [] && !q.open && OnWire(q.fetches[0])
    ensures Inv(Requested(q, first, chunks)) && Requested(q, first, chunks).fetches != []
  {
    hide SettledCount, DoneCount, UnheardCount, Starts;
    var r := Requested(q, first, chunks);
    forall id: nat
      ensures Queued(r, id) <==> Queued(q, id)
    {
      HeadQueued(q, r, id);
    }
    assert OnWire(r.fetches[0]) by { assert NextSeq(q.intentSeq) in r.fetches[0].seqs; }
  }

  lemma {:induction false} PumpedInv(q: Queue, lim: Limits, nowMs: int)
    requires Inv(q)
    ensures Inv(Pumped(q, lim, nowMs))
    decreases |q.fetches|
  {
    hide Inv, Requested, Concluded, Repaired;
    if q.fetches != [] {
      var f := q.fetches[0];
      if !OnWire(f) {
        if !q.catalogInFlight && q.open {
          var g := f.(startMs := nowMs);
          HeadTouched(q, g);
          RequestedInv(q.(fetches := [g] + q.fetches[1..]), true, []);
        }
      } else if nowMs - f.startMs >= lim.timeoutMs {
        ConcludedInv(q, 0, TimedOut);
        PumpedInv(Concluded(q, 0, TimedOut), lim, nowMs);
      } else if GapElapsed(f, lim, nowMs) {
        RepairedInv(q, nowMs);
      }
    }
  }

  lemma FinishedInv(q: Queue, i: nat, how: How, lim: Limits, nowMs: int)
    requires Inv(q) && i < |q.fetches| && Possible(q.fetches[i], how)
    ensures Inv(Finished(q, i, how, lim, nowMs))
  {
    hide Inv, Concluded, Pumped;
    ConcludedInv(q, i, how);
    PumpedInv(Concluded(q, i, how), lim, nowMs);
  }

  lemma AskedInv(q: Queue, lim: Limits, target: Target, known: bool, nowMs: int)
    requires Inv(q)
    ensures Inv(Asked(q, lim, target, known, nowMs))
  {
    hide SettledCount, DoneCount, UnheardCount, Starts, Pumped;
    if target.ns == 0 || !q.open || !known {
      var o := Settled(q.next, Rejected, false, q.open);
      var r := Asked(q, lim, target, known, nowMs);
      LoggedCounts(q.log, o, 0);
      assert Starts(r.log) == Starts(q.log);
      forall id: nat
        ensures SettledCount(r.log, id) == (if id < r.next && !Queued(r, id) then 1 else 0)
        ensures DoneCount(r.log, id) == UnheardCount(r.log, id)
      {
        LoggedCounts(q.log, o, id);
        assert Queued(r, id) <==> Queued(q, id);
      }
    } else {
      var f := Fetch(q.next, target, {}, 0, 0, Receiver(Off, None));
      var r := q.(next := q.next + 1, fetches := q.fetches + [f]);
      forall id: nat
        ensures SettledCount(r.log, id) == (if id < r.next && !Queued(r, id) then 1 else 0)
      {
        if Queued(q, id) {
          var i :| 0 <= i < |q.fetches| && q.fetches[i].id == id;
          assert r.fetches[i].id == id;
        }
        assert r.fetches[|q.fetches|].id == q.next;
      }
      PumpedInv(r, lim, nowMs);
    }
  }

  /** The cursor may pass to the catalog once the head is off the wire. */
  lemma CatalogTakes(q: Queue)
    requires Inv(q) && (q.fetches != [] ==> !OnWire(q.fetches[0]))
    ensures Inv(q.(catalogInFlight := true))
  {
    hide SettledCount, DoneCount, UnheardCount, Starts;
    assert forall id: nat :: Queued(q.(catalogInFlight := true), id) <==> Queued(q, id);
  }

  lemma Unmarked(q: Queue, inFlight: bool, open: bool, seqno: nat)
    requires Inv(q) && (inFlight ==> q.catalogInFlight)
    ensures Inv(q.(catalogInFlight := inFlight, open := open, intentSeq := seqno))
  {
    hide SettledCount, DoneCount, UnheardCount, Starts;
    var r := q.(catalogInFlight := inFlight, open := open, intentSeq := seqno);
    assert forall id: nat :: Queued(r, id) <==> Queued(q, id);
  }

  /** While the catalog owns the cursor the pump does nothing to a queue that is off the wire. */
  lemma CatalogAskedInv(q: Queue, lim: Limits, nowMs: int)
    requires Inv(q)
    ensures Inv(CatalogAsked(q, lim, nowMs))
  {
    hide Inv, Concluded, SettledCount, DoneCount, UnheardCount, Starts, OnWire;
    var r := q.(catalogInFlight := true);
    var s := if r.fetches != [] && OnWire(r.fetches[0]) then Finished(r, 0, Aborted, lim, nowMs) else r;
    if q.fetches != [] && OnWire(q.fetches[0]) {
      ConcludedInv(q, 0, Aborted);
      var t := Concluded(q, 0, Aborted);
      OffWire(q, t);
      SameConcluded(q, r);
      CatalogTakes(t);
    } else {
      CatalogTakes(q);
    }
    CatalogLogged(s);
  }

  lemma OffWire(q: Queue, t: Queue)
    requires Inv(q) && q.fetches != [] && t == Concluded(q, 0, Aborted)
    ensures t.fetches != [] ==> !OnWire(t.fetches[0])
  {
    DroppedAt(q.fetches, 0);
  }

  lemma SameConcluded(q: Queue, r: Queue)
    requires q.fetches != [] && r == q.(catalogInFlight := true)
    ensures Concluded(r, 0, Aborted) == Concluded(q, 0, Aborted).(catalogInFlight := true)
  {
  }

  lemma CatalogLogged(s: Queue)
    requires Inv(s)
    ensures Inv(Logged(s, CatalogRequest))
  {
    hide SettledCount, DoneCount, UnheardCount, Starts;
    var r := Logged(s, CatalogRequest);
    LoggedCounts(s.log, CatalogRequest, 0);
    assert Starts(r.log) == Starts(s.log);
    forall id: nat
      ensures SettledCount(r.log, id) == (if id < r.next && !Queued(r, id) then 1 else 0)
      ensures DoneCount(r.log, id) == UnheardCount(r.log, id)
    {
      LoggedCounts(s.log, CatalogRequest, id);
      assert Queued(r, id) <==> Queued(s, id);
    }
  }

  lemma ChunkArrivedInv(q: Queue, lim: Limits, h: Chunk, nowMs: int, digestOk: bool)
    requires Inv(q)
    ensures Inv(ChunkArrived(q, lim, h, nowMs, digestOk))
  {
    hide Inv, Concluded, Pumped, Blob.Received, Restarts, Begun, Belongs, Complete;
    if ForHead(q, h) {
      var f := q.fetches[0];
      if Restarts(f.rx, h) && h.total > lim.max {
        Unmarked(q, q.catalogInFlight, false, q.intentSeq);
      } else {
        var t := Transfer(lim, f.rx, h);
        var moved := (Restarts(f.rx, h) && t.On?) || Belongs(t, h);
        var g := f.(rx := Blob.Received(lim.max, f.target, f.rx, h), progressMs := if moved then nowMs else f.progressMs);
        HeadTouched(q, g);
        var r := q.(fetches := [g] + q.fetches[1..]);
        if Belongs(t, h) && Complete(g.rx.rx) {
          FinishedInv(r, 0, if digestOk then Resolved else Mismatched, lim, nowMs);
        }
      }
    }
  }

  lemma {:induction false} AllClosedInv(q: Queue)
    requires Inv(q)
    ensures Inv(AllClosed(q)) && AllClosed(q).fetches == [] && AllClosed(q).next == q.next
    decreases |q.fetches|
  {
    hide Inv, Concluded;
    if q.fetches != [] {
      ConcludedInv(q, 0, SocketClosed);
      AllClosedInv(Concluded(q, 0, SocketClosed));
    }
  }

  lemma NextInv(q: Queue, lim: Limits, ev: Event)
    requires Inv(q)
    ensures Inv(Next(q, lim, ev))
  {
    hide Inv, Asked, CatalogAsked, Pumped, ChunkArrived, Concluded, AllClosed;
    match ev
    case Ask(target, known, nowMs) => AskedInv(q, lim, target, known, nowMs);
    case AskCatalog(nowMs) => CatalogAskedInv(q, lim, nowMs);
    case CatalogEnds => Unmarked(q, false, q.open, q.intentSeq);
    case Tick(nowMs) => PumpedInv(q, lim, nowMs);
    case Arrives(h, nowMs, digestOk) => ChunkArrivedInv(q, lim, h, nowMs, digestOk);
    case Refusal(seqno, nowMs) =>
      if q.fetches != [] && seqno in q.fetches[0].seqs {
        FinishedInv(q, 0, Nacked, lim, nowMs);
      }
    case Cancel(id, nowMs) =>
      var i := IndexOf(q.fetches, id);
      if i.Some? {
        FinishedInv(q, i.value, Aborted, lim, nowMs);
      }
    case IntentSent => Unmarked(q, q.catalogInFlight, q.open, NextSeq(q.intentSeq));
    case Opens => Unmarked(q, q.catalogInFlight, true, q.intentSeq);
    case Falters => Unmarked(q, q.catalogInFlight, false, q.intentSeq);
    case Closes =>
      var r := q.(open := false);
      Unmarked(q, q.catalogInFlight, false, q.intentSeq);
      AllClosedInv(r);
      Unmarked(AllClosed(r), false, AllClosed(r).open, AllClosed(r).intentSeq);
  }

  /** In every reachable state the queue keeps its promises. */
  lemma {:induction false} RunInv(lim: Limits, evs: seq<Event>)
    ensures Inv(Run(lim, evs))
    decreases |evs|
  {
    hide Next;
    if evs != [] {
      RunInv(lim, evs[..|evs| - 1]);
      NextInv(Run(lim, evs[..|evs| - 1]), lim, evs[|evs| - 1]);
    }
  }

  /** Once the socket has closed, every fetch ever asked for has been settled, exactly once. */
  lemma ClosedSettlesAll(lim: Limits, evs: seq<Event>, id: nat)
    requires id < Run(lim, evs).next
    ensures var q := Next(Run(lim, evs), lim, Closes); q.fetches == [] && SettledCount(q.log, id) == 1
  {
    hide Run, Next, Inv, AllClosed, Concluded;
    var q := Run(lim, evs);
    RunInv(lim, evs);
    Unmarked(q, q.catalogInFlight, false, q.intentSeq);
    AllClosedInv(q.(open := false));
    ClosesIs(q, lim);
    NextInv(q, lim, Closes);
    SettledOnce(Next(q, lim, Closes), id);
  }

  lemma ClosesIs(q: Queue, lim: Limits)
    ensures Next(q, lim, Closes) == AllClosed(q.(open := false)).(catalogInFlight := false)
  {
    hide AllClosed;
  }

  lemma SettledOnce(q: Queue, id: nat)
    requires Inv(q) && q.fetches == [] && id < q.next
    ensures SettledCount(q.log, id) == 1
  {
    hide SettledCount, DoneCount, UnheardCount, Starts;
    assert !Queued(q, id);
  }

  lemma {:induction false} CountsAt(log: seq<Out>, i: nat, id: nat)
    requires i < |log| && log[i].Settled? && log[i].id == id && SettledCount(log, id) == 1
    ensures UnheardCount(log, id) == if Unheard(log[i]) then 1 else 0
    decreases |log|
  {
    hide Unheard;
    var last := |log| - 1;
    if i == last {
      NoneSettled(log[..last], id);
    } else {
      if log[last].Settled? && log[last].id == id {
        SomeSettled(log[..last], i, id);
      }
      CountsAt(log[..last], i, id);
      OtherEnd(log[last], id);
    }
  }

  lemma OtherEnd(o: Out, id: nat)
    ensures !(o.Settled? && o.id == id) ==> !(Unheard(o) && o.id == id)
  {
  }

  lemma {:induction false} NoneSettled(log: seq<Out>, id: nat)
    requires SettledCount(log, id) == 0
    ensures UnheardCount(log, id) == 0
    decreases |log|
  {
    if log != [] {
      NoneSettled(log[..|log| - 1], id);
    }
  }

  lemma {:induction false} SomeSettled(log: seq<Out>, i: nat, id: nat)
    requires i < |log| && log[i].Settled? && log[i].id == id
    ensures SettledCount(log, id) >= 1
    decreases |log|
  {
    if i < |log| - 1 {
      SomeSettled(log[..|log| - 1], i, id);
    }
  }

  /**
   * In every run, a fetch that has ended sent exactly one BLOB_DONE if it was on the wire, the socket
   * was open and the end was neither a NACK nor the socket's own; any other sent none.
   */
  lemma DoneOnce(lim: Limits, evs: seq<Event>, i: nat)
    requires i < |Run(lim, evs).log| && Run(lim, evs).log[i].Settled?
    ensures var log := Run(lim, evs).log;
            var o := log[i];
            DoneCount(log, o.id) == if o.onWire && o.open && o.how != Nacked && o.how != SocketClosed then 1 else 0
  {
    hide Run, SettledCount, DoneCount, UnheardCount, Starts;
    var log := Run(lim, evs).log;
    RunInv(lim, evs);
    SomeSettled(log, i, log[i].id);
    CountsAt(log, i, log[i].id);
  }
}
