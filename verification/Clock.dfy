/** CLOCK offset arithmetic on wrapping 32-bit time (clients/js/session.js). */
module Clock {
  import opened Bytes

  const WRAP := 0x1_0000_0000
  const HALF := 0x8000_0000

  function Wrapped(x: int): u32 {
    x % WRAP
  }

  /** `wrapDiff`: the difference of two u32 times as a signed 32-bit number. */
  function WrapDiff(a: u32, b: u32): (d: int)
    ensures -HALF <= d < HALF && Wrapped(d) == Wrapped(a - b)
  {
    var d := Wrapped(a - b);
    if d >= HALF then d - WRAP else d
  }

  /** The signed 32-bit window a difference falls in; 0 while it needs no wrap. */
  function Window(x: int): int {
    (x + HALF) / WRAP
  }

  /** A signed difference is off by whole windows. */
  lemma DiffOf(a: int, b: int)
    ensures WrapDiff(Wrapped(a), Wrapped(b)) == a - b - Window(a - b) * WRAP
  {
    var d := WrapDiff(Wrapped(a), Wrapped(b));
    assert Wrapped(Wrapped(a) - Wrapped(b)) == Wrapped(a - b) by { WrappedMinus(a, b); }
    WindowOf(a - b, d);
  }

  lemma WrappedMinus(a: int, b: int)
    ensures Wrapped(Wrapped(a) - Wrapped(b)) == Wrapped(a - b)
  {
    var p, q := a / WRAP, b / WRAP;
    assert Wrapped(a) - Wrapped(b) == a - b - (p - q) * WRAP;
    WrappedShift(a - b, q - p);
  }

  lemma WrappedShift(x: int, k: int)
    ensures Wrapped(x + k * WRAP) == Wrapped(x)
  {
  }

  lemma WindowOf(x: int, d: int)
    requires -HALF <= d < HALF && Wrapped(d) == Wrapped(x)
    ensures d == x - Window(x) * WRAP
  {
    var k := x / WRAP - d / WRAP;
    assert x - d == k * WRAP;
    assert x + HALF == k * WRAP + (d + HALF);
  }

  /** `Math.floor((x + y) / 2)`. */
  function HalfSum(x: int, y: int): int {
    (x + y) / 2
  }

  /** The client's session clock: `state.clockOffsetUs` and `state.clockSynced`. */
  class ClockSync {
    var offset: int
    var synced: bool

    constructor ()
      ensures !synced
    {
      offset, synced := 0, false;
    }

    /** The reply of one exchange: sent at t0, seen by the hub at t1, answered at t2, back at t3. */
    method OnReply(t0: u32, t1: u32, t2: u32, t3: u32) returns (rtt: int)
      modifies this
      ensures synced && offset == HalfSum(WrapDiff(t1, t0), WrapDiff(t2, t3))
      ensures rtt == WrapDiff(t3, t0) - WrapDiff(t2, t1)
    {
      offset := (WrapDiff(t1, t0) + WrapDiff(t2, t3)) / 2;
      rtt := WrapDiff(t3, t0) - WrapDiff(t2, t1);
      synced := true;
    }

    /** `hubNowUs`. */
    function HubNow(clientNow: u32): u32
      reads this
    {
      Wrapped(clientNow + offset)
    }
  }

  /**
   * One exchange: the client's clock reads `c` when it sends, the hub's clock is `d` ahead, the
   * request takes `out`, the hub `held`, and the reply `back` microseconds.
   */
  datatype Exchange = Exchange(c: int, d: int, out: nat, held: nat, back: nat) {
    function T0(): u32 { Wrapped(c) }
    function T1(): u32 { Wrapped(c + out + d) }
    function T2(): u32 { Wrapped(c + out + held + d) }
    function T3(): u32 { Wrapped(c + out + held + back) }

    function Offset(): int {
      HalfSum(WrapDiff(T1(), T0()), WrapDiff(T2(), T3()))
    }

    function Rtt(): int {
      WrapDiff(T3(), T0()) - WrapDiff(T2(), T1())
    }

    /** `d + out` and `d - back` fall in the same signed 32-bit window. */
    predicate SameWindow() {
      Window(d + out) == Window(d - back)
    }
  }

  /**
   * The round trip computed is the two one-way delays, across any timer wrap, if and only if the whole
   * exchange and the hub's part of it fall in one signed 32-bit window, as they do below 2^31
   * microseconds; otherwise it is short by whole windows.
   */
  lemma RttIsDelays(x: Exchange)
    ensures x.Rtt() == x.out + x.back - (Window(x.out + x.held + x.back) - Window(x.held)) * WRAP
    ensures x.Rtt() == x.out + x.back <==> Window(x.out + x.held + x.back) == Window(x.held)
    ensures x.out + x.held + x.back < 2147483648 ==> x.Rtt() == x.out + x.back
  {
    DiffOf(x.c + x.out + x.held + x.back, x.c);
    DiffOf(x.c + x.out + x.held + x.d, x.c + x.out + x.d);
    WholeWindows(Window(x.out + x.held + x.back), Window(x.held));
  }

  lemma WholeWindows(a: int, b: int)
    ensures a * WRAP - b * WRAP == (a - b) * WRAP && ((a - b) * WRAP == 0 <==> a == b)
  {
  }

  /** The two differences of an exchange, unwrapped. */
  lemma OffsetIs(x: Exchange)
    ensures x.Offset() == HalfSum(x.d + x.out - Window(x.d + x.out) * WRAP, x.d - x.back - Window(x.d - x.back) * WRAP)
  {
    DiffOf(x.c + x.out + x.d, x.c);
    DiffOf(x.c + x.out + x.held + x.d, x.c + x.out + x.held + x.back);
  }

  /** The hub time the client computes at its time `c`, against the true hub time `c + d`. */
  function ErrorOf(x: Exchange, c: int): u32 {
    Wrapped(Wrapped(Wrapped(c) + x.Offset()) - Wrapped(c + x.d))
  }

  lemma ErrorIs(x: Exchange, c: int)
    ensures ErrorOf(x, c) == Wrapped(x.Offset() - x.d)
  {
    var o := x.Offset();
    assert Wrapped(Wrapped(c) + o) == Wrapped(c + o) by { WrappedPlus(c, o); }
    WrappedMinus(c + o, c + x.d);
  }

  lemma WrappedPlus(a: int, b: int)
    ensures Wrapped(Wrapped(a) + b) == Wrapped(a + b)
  {
    WrappedShift(a + b, -(a / WRAP));
  }

  /**
   * With less than 2^32 microseconds under way, the computed hub time is off by half the asymmetry
   * of the delays if and only if both differences fall in one window; otherwise by 2^31 more.
   */
  lemma HubTime(x: Exchange, c: int)
    requires x.out + x.back < 4294967296
    ensures var skew := HalfSum(x.out, -(x.back as int));
            && ErrorOf(x, c) == (if x.SameWindow() then skew else skew + 2147483648) % 4294967296
            && (x.SameWindow() <==> ErrorOf(x, c) == skew % 4294967296)
            && -((x.out + x.back + 1) / 2) <= skew <= (x.out + x.back + 1) / 2
  {
    var hi, lo := Window(x.d + x.out), Window(x.d - x.back);
    OffsetIs(x);
    ErrorIs(x, c);
    assert lo <= hi <= lo + 1;
    var skew := HalfSum(x.out, -(x.back as int));
    if hi == lo {
      assert x.Offset() - x.d == skew + (-hi) * WRAP;
      WrappedShift(skew, -hi);
    } else {
      assert x.Offset() - x.d == skew + HALF + (-hi) * WRAP;
      WrappedShift(skew + HALF, -hi);
      HalfMoves(skew);
    }
  }

  lemma HalfMoves(x: int)
    ensures Wrapped(x + HALF) != Wrapped(x)
  {
    var p, q := (x + HALF) / WRAP, x / WRAP;
    assert x + HALF - Wrapped(x + HALF) - (x - Wrapped(x)) == (p - q) * WRAP;
  }
}
