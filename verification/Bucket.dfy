/** The publish token bucket of the client (clients/js/session.js), in exact arithmetic. */
module Bucket {
  import opened Bytes

  /** A granted publication: rate in Hz, and the burst capacity if the hub echoed one. */
  datatype Grant = Grant(rate: real, burst: Option<nat>)

  /** Samples per second the hub meters: the whole rate, at least one. */
  function Rate(g: Grant): (r: int)
    ensures r >= 1
  {
    if g.rate.Floor < 1 then 1 else g.rate.Floor
  }

  function Capacity(g: Grant): (c: real)
    ensures c >= 0.0
  {
    if g.burst.Some? then g.burst.value as real else Rate(g) as real
  }

  /** The sender's side of a publication. */
  datatype Tx = Tx(seqno: u16, tokens: real, lastMs: int)

  function Least(a: real, b: real): real {
    if a < b then a else b
  }

  /** What time adds to the bucket; a clock that went back adds nothing. */
  function Inflow(g: Grant, fromMs: int, toMs: int): (r: real)
    ensures r >= 0.0
  {
    if toMs <= fromMs then 0.0 else Flow(g, toMs - fromMs)
  }

  function Flow(g: Grant, ms: int): real {
    ms as real / 1000.0 * Rate(g) as real
  }

  function Refilled(g: Grant, tx: Tx, nowMs: int): Tx {
    tx.(tokens := Least(Capacity(g), tx.tokens + Inflow(g, tx.lastMs, nowMs)), lastMs := nowMs)
  }

  /** One bundle: when it is tried, its samples, whether it is well formed, and whether the socket takes it. */
  datatype Bundle = Bundle(nowMs: int, n: nat, valid: bool, open: bool)

  /** Does the bundle reach the socket? */
  predicate Sends(g: Grant, tx: Tx, b: Bundle) {
    b.valid && b.open && Refilled(g, tx, b.nowMs).tokens >= b.n as real
  }

  /** The sender after a bundle. */
  function Tried(g: Grant, tx: Tx, b: Bundle): Tx {
    if !b.valid then tx
    else if Sends(g, tx, b) then
      var r := Refilled(g, tx, b.nowMs);
      Tx((tx.seqno + 1) % 0x1_0000, r.tokens - b.n as real, b.nowMs)
    else Refilled(g, tx, b.nowMs)
  }

  function TriedAll(g: Grant, tx: Tx, bs: seq<Bundle>): Tx
    decreases bs
  {
    if bs == [] then tx else TriedAll(g, Tried(g, tx, bs[0]), bs[1..])
  }

  // ---- the sender, step by step -----------------------------------------------------------------

  datatype Result = Sent(seqno: u16) | BadBundle | RateExceeded | NotSent

  class Sender {
    var grant: Grant
    var tx: Tx

    constructor (g: Grant, nowMs: int)
      ensures grant == g && tx == Tx(0, Capacity(g), nowMs) && Fresh(g, tx)
    {
      grant, tx := g, Tx(0, Capacity(g), nowMs);
    }

    /** `adoptPublishGrant`: the bucket is full again, the sequence goes on. */
    method Adopt(g: Grant, nowMs: int)
      modifies this
      ensures grant == g && tx == Tx(old(tx).seqno, Capacity(g), nowMs) && Fresh(g, tx)
    {
      grant, tx := g, Tx(tx.seqno, Capacity(g), nowMs);
    }

    /** `sendStream`. */
    method Send(b: Bundle) returns (r: Result)
      modifies this`tx
      ensures tx == Tried(grant, old(tx), b)
      ensures r.Sent? <==> Sends(grant, old(tx), b)
      ensures r.Sent? ==> r.seqno == old(tx).seqno
      ensures !r.Sent? && b.valid ==> tx == Refilled(grant, old(tx), b.nowMs)
      ensures r.BadBundle? <==> !b.valid
      ensures r.NotSent? <==> b.valid && !b.open && Refilled(grant, old(tx), b.nowMs).tokens >= b.n as real
      ensures b.valid ==> Holding(grant, old(tx), b.nowMs, tx.tokens + (if r.Sent? then b.n else 0) as real)
      ensures r.RateExceeded? <==> b.valid && tx.tokens < b.n as real && !r.Sent?
    {
      hide Holding;
      Metered(grant, tx, b.nowMs);
      if !b.valid {
        return BadBundle;
      }
      var cap := Capacity(grant);
      var elapsed := if b.nowMs > tx.lastMs then b.nowMs - tx.lastMs else 0;
      var tokens := tx.tokens + elapsed as real / 1000.0 * Rate(grant) as real;
      tx := tx.(tokens := if cap < tokens then cap else tokens, lastMs := b.nowMs);
      if tx.tokens < b.n as real {
        return RateExceeded;
      }
      if !b.open {
        return NotSent;
      }
      r := Sent(tx.seqno);
      tx := tx.(tokens := tx.tokens - b.n as real, seqno := (tx.seqno + 1) % 0x1_0000);
    }
  }

  // ---- in the numbers of the grant ----------------------------------------------------------------

  /** The bucket of a grant just made: the burst, or else a second's whole samples and at least one. */
  predicate Fresh(g: Grant, tx: Tx) {
    tx.tokens == (if g.burst.Some? then g.burst.value else if g.rate.Floor >= 1 then g.rate.Floor else 1) as real
  }

  /** What `hz` samples a second bring in `ms` milliseconds. */
  function Brings(hz: int, ms: int): real {
    ms as real / 1000.0 * hz as real
  }

  /** The tokens there are at a reading of the clock: those there were and what it brought, up to the bound. */
  predicate Holding(g: Grant, tx: Tx, nowMs: int, tokens: real) {
    var hz := if g.rate.Floor >= 1 then g.rate.Floor else 1;
    var cap := (if g.burst.Some? then g.burst.value else hz) as real;
    var there := tx.tokens + Brings(hz, if nowMs > tx.lastMs then nowMs - tx.lastMs else 0);
    tokens == if there < cap then there else cap
  }

  lemma InNumbers(g: Grant, ms: int)
    ensures var hz := (if g.rate.Floor >= 1 then g.rate.Floor else 1);
            Capacity(g) == (if g.burst.Some? then g.burst.value else hz) as real && Flow(g, ms) == Brings(hz, ms)
  {
  }

  lemma Metered(g: Grant, tx: Tx, nowMs: int)
    ensures Holding(g, tx, nowMs, Refilled(g, tx, nowMs).tokens)
  {
  }

  /** A fresh grant takes `n` samples at once, on whatever clock, exactly up to its burst, or its rate without one. */
  lemma FreshTakes(g: Grant, tx: Tx, nowMs: int, n: nat)
    requires Fresh(g, tx)
    ensures Sends(g, tx, Bundle(nowMs, n, true, true))
       <==> n <= if g.burst.Some? then g.burst.value else if g.rate.Floor >= 1 then g.rate.Floor else 1
  {
  }

  /** From an empty bucket, `ms` milliseconds later, it takes what the rate has brought, up to the same bound. */
  lemma EmptyTakes(g: Grant, seqno: u16, lastMs: int, ms: nat, n: nat)
    ensures var hz := (if g.rate.Floor >= 1 then g.rate.Floor else 1);
            (Sends(g, Tx(seqno, 0.0, lastMs), Bundle(lastMs + ms, n, true, true))
             <==> n <= (if g.burst.Some? then g.burst.value else hz) && 1000 * n <= ms * hz)
  {
    var hz := if g.rate.Floor >= 1 then g.rate.Floor else 1;
    PerThousand(ms, hz, n);
  }

  lemma PerThousand(ms: nat, hz: nat, n: nat)
    ensures ms as real / 1000.0 * hz as real >= n as real <==> 1000 * n <= ms * hz
  {
    assert ms as real / 1000.0 * hz as real * 1000.0 == (ms * hz) as real;
    assert n as real * 1000.0 == (1000 * n) as real;
  }

  // ---- the bucket ---------------------------------------------------------------------------------

  /** Tokens stay between none and the capacity. */
  predicate InBucket(g: Grant, tx: Tx) {
    0.0 <= tx.tokens <= Capacity(g)
  }

  lemma {:induction false} StaysInBucket(g: Grant, tx: Tx, bs: seq<Bundle>)
    requires InBucket(g, tx)
    ensures InBucket(g, TriedAll(g, tx, bs))
    decreases bs
  {
    if bs != [] {
      StaysInBucket(g, Tried(g, tx, bs[0]), bs[1..]);
    }
  }

  /** The samples that reached the socket. */
  function Samples(g: Grant, tx: Tx, bs: seq<Bundle>): nat
    decreases bs
  {
    if bs == [] then 0
    else (if Sends(g, tx, bs[0]) then bs[0].n else 0) + Samples(g, Tried(g, tx, bs[0]), bs[1..])
  }

  /** The clock never goes back, within [from, to]. */
  predicate Forward(bs: seq<Bundle>, fromMs: int, toMs: int)
    decreases bs
  {
    if bs == [] then fromMs <= toMs
    else fromMs <= bs[0].nowMs && Forward(bs[1..], bs[0].nowMs, toMs)
  }

  lemma {:induction false} ForwardSpan(bs: seq<Bundle>, fromMs: int, toMs: int)
    requires Forward(bs, fromMs, toMs)
    ensures fromMs <= toMs
    decreases bs
  {
    if bs != [] {
      ForwardSpan(bs[1..], bs[0].nowMs, toMs);
    }
  }

  lemma FlowAdds(g: Grant, a: int, b: int)
    ensures Flow(g, a) + Flow(g, b) == Flow(g, a + b)
  {
    Distribute(a as real / 1000.0, b as real / 1000.0, Rate(g) as real);
    assert a as real / 1000.0 + b as real / 1000.0 == (a + b) as real / 1000.0;
  }

  lemma Distribute(x: real, y: real, z: real)
    ensures x * z + y * z == (x + y) * z
  {
  }

  lemma FlowGrows(g: Grant, a: int)
    requires a >= 0
    ensures Flow(g, a) >= 0.0
  {
  }

  /** How far the clock goes forward over these bundles, whatever it goes back between; a malformed one is not timed. */
  function ForwardMs(bs: seq<Bundle>, fromMs: int): (d: nat)
    decreases bs
  {
    if bs == [] then 0
    else if !bs[0].valid then ForwardMs(bs[1..], fromMs)
    else (if bs[0].nowMs > fromMs then bs[0].nowMs - fromMs else 0) + ForwardMs(bs[1..], bs[0].nowMs)
  }

  /** What is sent is paid for, by the tokens there were and the forward moves of the clock: any clock. */
  lemma {:induction false} PaidFor(g: Grant, tx: Tx, bs: seq<Bundle>)
    requires InBucket(g, tx)
    ensures Samples(g, tx, bs) as real + TriedAll(g, tx, bs).tokens <= tx.tokens + Flow(g, ForwardMs(bs, tx.lastMs))
    decreases bs
  {
    hide Flow;
    if bs == [] {
      FlowGrows(g, 0);
    } else {
      var b, next := bs[0], Tried(g, tx, bs[0]);
      StaysInBucket(g, tx, [b]);
      PaidFor(g, next, bs[1..]);
      if b.valid {
        var moved := if b.nowMs > tx.lastMs then b.nowMs - tx.lastMs else 0;
        FlowAdds(g, moved, ForwardMs(bs[1..], b.nowMs));
        FlowGrows(g, moved);
        TriedPays(g, tx, b);
      }
    }
  }

  /** One bundle pays its samples out of the refilled bucket. */
  lemma TriedPays(g: Grant, tx: Tx, b: Bundle)
    requires InBucket(g, tx) && b.valid
    ensures var next, paid := Tried(g, tx, b), (if Sends(g, tx, b) then b.n else 0) as real;
            && InBucket(g, next) && next.lastMs == b.nowMs && paid + next.tokens <= Capacity(g)
            && paid + next.tokens <= tx.tokens + Flow(g, if b.nowMs > tx.lastMs then b.nowMs - tx.lastMs else 0)
  {
  }

  /**
   * The samples sent over any stretch of a run, whatever came before it and whatever the clock does,
   * number at most the capacity plus what the rate allows in the clock's forward moves from `s` on.
   */
  lemma {:induction false} MovesBound(g: Grant, tx: Tx, bs: seq<Bundle>, s: int)
    requires InBucket(g, tx)
    ensures Samples(g, tx, bs) as real <= Capacity(g) + Flow(g, ForwardMs(bs, s))
    decreases bs
  {
    hide Flow;
    FlowGrows(g, ForwardMs(bs, s));
    if bs != [] {
      var b, next := bs[0], Tried(g, tx, bs[0]);
      if b.valid {
        var moved := if b.nowMs > s then b.nowMs - s else 0;
        TriedPays(g, tx, b);
        PaidFor(g, next, bs[1..]);
        StaysInBucket(g, next, bs[1..]);
        FlowAdds(g, moved, ForwardMs(bs[1..], b.nowMs));
        FlowGrows(g, moved);
      } else {
        MovesBound(g, tx, bs[1..], s);
      }
    }
  }

  /** A clock that never goes back moves forward no more than the window is long. */
  lemma {:induction false} ForwardMoves(bs: seq<Bundle>, s: int, t: int)
    requires Forward(bs, s, t)
    ensures ForwardMs(bs, s) <= t - s
    decreases bs
  {
    if bs != [] {
      ForwardSpan(bs[1..], bs[0].nowMs, t);
      if bs[0].valid {
        ForwardMoves(bs[1..], bs[0].nowMs, t);
      } else {
        LaterStart(bs[1..], s, bs[0].nowMs, t);
        ForwardMoves(bs[1..], s, t);
      }
    }
  }

  lemma LaterStart(bs: seq<Bundle>, fromMs: int, midMs: int, toMs: int)
    requires fromMs <= midMs && Forward(bs, midMs, toMs)
    ensures Forward(bs, fromMs, toMs)
  {
  }

  /** As long as the clock's forward moves in [s, t] add up to no more than its length, the window keeps its bound. */
  lemma WindowWhile(g: Grant, start: Tx, before: seq<Bundle>, window: seq<Bundle>, s: int, t: int)
    requires InBucket(g, start) && ForwardMs(window, s) <= t - s
    ensures Samples(g, TriedAll(g, start, before), window) as real <= Capacity(g) + Flow(g, t - s)
  {
    hide Flow;
    var moves: nat := ForwardMs(window, s);
    StaysInBucket(g, start, before);
    MovesBound(g, TriedAll(g, start, before), window, s);
    FlowAdds(g, moves, t - s - moves);
    FlowGrows(g, t - s - moves);
  }

  /**
   * The samples sent in any window [s, t] of a run, whatever came before it, number at most the
   * capacity plus what the rate allows in t - s, while the clock never goes back in the window.
   */
  lemma WindowBound(g: Grant, start: Tx, before: seq<Bundle>, window: seq<Bundle>, s: int, t: int)
    requires InBucket(g, start) && Forward(window, s, t)
    ensures var hz := if g.rate.Floor >= 1 then g.rate.Floor else 1;
            Samples(g, TriedAll(g, start, before), window) as real
            <= (if g.burst.Some? then g.burst.value else hz) as real + Brings(hz, t - s)
  {
    hide Flow, Brings, Capacity;
    InNumbers(g, t - s);
    ForwardMoves(window, s, t);
    WindowWhile(g, start, before, window, s, t);
  }

  // ---- and no less --------------------------------------------------------------------------------

  /** Samples asked for. */
  function Asked(bs: seq<Bundle>): nat {
    if bs == [] then 0 else bs[0].n + Asked(bs[1..])
  }

  /** Well formed bundles, on an open socket, under a clock that never goes back. */
  predicate Orderly(bs: seq<Bundle>, fromMs: int)
    decreases bs
  {
    bs == [] || (bs[0].valid && bs[0].open && fromMs <= bs[0].nowMs && Orderly(bs[1..], bs[0].nowMs))
  }

  /** Every run of bundles that begins with the first asks for no more than these tokens and the time it takes bring. */
  ghost predicate Affords(tokens: real, hz: int, fromMs: int, bs: seq<Bundle>) {
    forall j :: 0 <= j < |bs| ==> Asked(bs[..j + 1]) as real <= tokens + Brings(hz, bs[j].nowMs - fromMs)
  }

  /** The same of every run of bundles within, against a full bucket of `cap`. */
  ghost predicate Conforms(cap: real, hz: int, bs: seq<Bundle>)
    decreases bs
  {
    bs == [] || (Affords(cap, hz, bs[0].nowMs, bs) && Conforms(cap, hz, bs[1..]))
  }

  /** Every bundle reaches the socket. */
  predicate SendsAll(g: Grant, tx: Tx, bs: seq<Bundle>)
    decreases bs
  {
    bs == [] || (Sends(g, tx, bs[0]) && SendsAll(g, Tried(g, tx, bs[0]), bs[1..]))
  }

  /** What a run of bundles may ask for once its first has been paid. */
  lemma AffordsRest(tokens: real, hz: int, fromMs: int, cap: real, bs: seq<Bundle>)
    requires bs != []
    ensures var there, b := tokens + Brings(hz, bs[0].nowMs - fromMs), bs[0];
            (Affords(tokens, hz, fromMs, bs) && Affords(cap, hz, b.nowMs, bs)
             <==> b.n as real <= there && b.n as real <= cap
                  && Affords((if there < cap then there else cap) - b.n as real, hz, b.nowMs, bs[1..]))
  {
    hide Brings;
    var b, rest := bs[0], bs[1..];
    var there := tokens + Brings(hz, b.nowMs - fromMs);
    var left := (if there < cap then there else cap) - b.n as real;
    AffordsFirst(tokens, hz, fromMs, bs);
    AffordsFirst(cap, hz, b.nowMs, bs);
    assert Brings(hz, b.nowMs - b.nowMs) == 0.0 by { BringsNothing(hz); }
    LeastAffords(there - b.n as real, cap - b.n as real, hz, b.nowMs, rest);
  }

  lemma BringsNothing(hz: int)
    ensures Brings(hz, 0) == 0.0
  {
  }

  lemma LeastAffords(a: real, c: real, hz: int, fromMs: int, bs: seq<Bundle>)
    ensures Affords(if a < c then a else c, hz, fromMs, bs) <==> Affords(a, hz, fromMs, bs) && Affords(c, hz, fromMs, bs)
  {
    hide Brings, Asked;
  }

  /** The first is paid, and the rest with what is left. */
  lemma AffordsFirst(tokens: real, hz: int, fromMs: int, bs: seq<Bundle>)
    requires bs != []
    ensures var there, b := tokens + Brings(hz, bs[0].nowMs - fromMs), bs[0];
            (Affords(tokens, hz, fromMs, bs)
             <==> b.n as real <= there && Affords(there - b.n as real, hz, b.nowMs, bs[1..]))
  {
    hide Brings;
    var b, rest := bs[0], bs[1..];
    var left := tokens + Brings(hz, b.nowMs - fromMs) - b.n as real;
    AskedFirst(bs, 0);
    assert bs[..1][1..] == [];
    forall j | 0 <= j < |rest|
      ensures Asked(bs[..j + 2]) as real <= tokens + Brings(hz, bs[j + 1].nowMs - fromMs)
         <==> Asked(rest[..j + 1]) as real <= left + Brings(hz, rest[j].nowMs - b.nowMs)
    {
      AskedFirst(bs, j + 1);
      assert bs[..j + 2][1..] == rest[..j + 1];
      TimeAdds(fromMs, b.nowMs, rest[j].nowMs, hz);
    }
    if Affords(tokens, hz, fromMs, bs) {
      assert Asked(bs[..0 + 1]) as real <= tokens + Brings(hz, bs[0].nowMs - fromMs);
      forall j | 0 <= j < |rest|
        ensures Asked(rest[..j + 1]) as real <= left + Brings(hz, rest[j].nowMs - b.nowMs)
      {
        assert Asked(bs[..(j + 1) + 1]) as real <= tokens + Brings(hz, bs[j + 1].nowMs - fromMs);
      }
    } else {
      var j :| 0 <= j < |bs| && !(Asked(bs[..j + 1]) as real <= tokens + Brings(hz, bs[j].nowMs - fromMs));
      if j > 0 {
        assert !(Asked(rest[..(j - 1) + 1]) as real <= left + Brings(hz, rest[j - 1].nowMs - b.nowMs));
      }
    }
  }

  lemma AskedFirst(bs: seq<Bundle>, j: nat)
    requires j < |bs|
    ensures Asked(bs[..j + 1]) == bs[0].n + Asked(bs[..j + 1][1..])
  {
  }

  lemma TimeAdds(a: int, b: int, c: int, hz: int)
    ensures Brings(hz, c - a) == Brings(hz, b - a) + Brings(hz, c - b)
  {
    Distribute((b - a) as real / 1000.0, (c - b) as real / 1000.0, hz as real);
    assert (b - a) as real / 1000.0 + (c - b) as real / 1000.0 == (c - a) as real / 1000.0;
  }

  /**
   * Every bundle of an orderly run reaches the socket if and only if no stretch of it asks for more than
   * the burst, or the whole rate without one, and what the rate brings in the time the stretch takes; a
   * stretch from the beginning has the tokens there are.
   */
  lemma {:induction false} SendsAllIff(g: Grant, tx: Tx, bs: seq<Bundle>)
    requires Orderly(bs, tx.lastMs)
    ensures var hz := (if g.rate.Floor >= 1 then g.rate.Floor else 1);
            var cap := (if g.burst.Some? then g.burst.value else hz) as real;
            SendsAll(g, tx, bs) <==> Affords(tx.tokens, hz, tx.lastMs, bs) && Conforms(cap, hz, bs)
    decreases bs
  {
    hide Affords, Refilled, Brings;
    if bs == [] {
      AffordsNothing(tx.tokens, if g.rate.Floor >= 1 then g.rate.Floor else 1, tx.lastMs);
    } else {
      var hz := if g.rate.Floor >= 1 then g.rate.Floor else 1;
      var cap := (if g.burst.Some? then g.burst.value else hz) as real;
      Metered(g, tx, bs[0].nowMs);
      AffordsRest(tx.tokens, hz, tx.lastMs, cap, bs);
      if Sends(g, tx, bs[0]) {
        SendsAllIff(g, Tried(g, tx, bs[0]), bs[1..]);
      }
    }
  }

  lemma AffordsNothing(tokens: real, hz: int, fromMs: int)
    ensures Affords(tokens, hz, fromMs, [])
  {
  }


  // ---- a clock that goes back ------------------------------------------------------------------------

  const ONE_HERTZ := Grant(1.0, None)

  /** The clock goes from 0 to 1000 and back, `k` times, and a sample is tried at every reading. */
  function BackAndForth(k: nat): seq<Bundle> {
    if k == 0 then [] else [Bundle(1000, 1, true, true), Bundle(0, 1, true, true)] + BackAndForth(k - 1)
  }

  /** Each time forward the same second is paid out again. */
  lemma {:induction false} PaysAgain(k: nat, seqno: u16)
    ensures Samples(ONE_HERTZ, Tx(seqno, 0.0, 0), BackAndForth(k)) == k
    ensures ForwardMs(BackAndForth(k), 0) == 1000 * k
  {
    if k > 0 {
      var there, back, rest := Bundle(1000, 1, true, true), Bundle(0, 1, true, true), BackAndForth(k - 1);
      var bs, next := BackAndForth(k), Tx((seqno + 1) % 0x1_0000, 0.0, 1000);
      assert bs[0] == there && bs[1..] == [back] + rest && bs[1..][0] == back && bs[1..][1..] == rest;
      ThereAndBack(seqno);
      PaysAgain(k - 1, (seqno + 1) % 0x1_0000);
      assert Samples(ONE_HERTZ, next, [back] + rest) == k - 1;
      assert ForwardMs([back] + rest, 1000) == ForwardMs(rest, 0);
    }
  }

  lemma ThereAndBack(seqno: u16)
    ensures var g, there, back := ONE_HERTZ, Bundle(1000, 1, true, true), Bundle(0, 1, true, true);
            var t, u := Tx(seqno, 0.0, 0), Tx((seqno + 1) % 0x1_0000, 0.0, 1000);
            && Sends(g, t, there) && Tried(g, t, there) == u
            && !Sends(g, u, back) && Tried(g, u, back) == Tx((seqno + 1) % 0x1_0000, 0.0, 0)
  {
    assert Flow(ONE_HERTZ, 1000) == 1.0;
  }

  /**
   * The bound by forward moves is attained for every number of moves, so within the second [0, 1000] a
   * clock that goes back overspends the bound by its length once it goes forward more than twice.
   */
  lemma ClockBackOverspends(k: nat)
    ensures var g, start, bs := ONE_HERTZ, Tx(0, 0.0, 0), BackAndForth(k);
            && InBucket(g, start) && Samples(g, start, bs) as real == Flow(g, ForwardMs(bs, 0)) == k as real
            && (k > 2 ==> Samples(g, start, bs) as real > Capacity(g) + Flow(g, 1000 - 0))
  {
    PaysAgain(k, 0);
    assert (1000 * k) as real / 1000.0 == k as real;
  }

  // ---- sequence numbers ----------------------------------------------------------------------------

  /** A grant adopted, or a bundle tried. */
  datatype Step = Regrant(g: Grant, nowMs: int) | Try(b: Bundle)

  /** The sequence numbers of the frames that reached the socket. */
  function Numbers(g: Grant, tx: Tx, steps: seq<Step>): seq<u16>
    decreases steps
  {
    if steps == [] then []
    else
      match steps[0]
      case Regrant(h, nowMs) => Numbers(h, Tx(tx.seqno, Capacity(h), nowMs), steps[1..])
      case Try(b) =>
        (if Sends(g, tx, b) then [tx.seqno] else []) + Numbers(g, Tried(g, tx, b), steps[1..])
  }

  /** Frames that reached the socket are numbered consecutively modulo 2^16, across refusals and grants. */
  lemma {:induction false} Consecutive(g: Grant, tx: Tx, steps: seq<Step>)
    ensures forall k :: 0 <= k < |Numbers(g, tx, steps)| ==> Numbers(g, tx, steps)[k] == (tx.seqno + k) % 0x1_0000
    decreases steps
  {
    if steps != [] {
      match steps[0]
      case Regrant(h, nowMs) => Consecutive(h, Tx(tx.seqno, Capacity(h), nowMs), steps[1..]);
      case Try(b) => Consecutive(g, Tried(g, tx, b), steps[1..]);
    }
  }
}
