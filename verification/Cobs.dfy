/**
 * COBS as the serial link uses it (clients/provision/link.js): a zero-free
 * body whose last code byte is dropped when a full 254-byte run just closed.
 */
module Cobs {
  import opened Bytes

  /** A run of this many data bytes closes with no zero behind it. */
  const FULL_RUN := 254

  // ---- reference definitions ------------------------------------------------

  /** One block: the code byte of a run, then the run. */
  function Block(run: seq<byte>): (b: seq<byte>)
    requires |run| <= FULL_RUN
    ensures |b| == |run| + 1
  {
    var code: byte := |run| + 1;
    [code] + run
  }

  /** The encoding of `run + rest`, where `run` is the open run and `rest` is still to be read. */
  function EncodedRun(run: seq<byte>, rest: seq<byte>): (y: seq<byte>)
    requires |run| < FULL_RUN
    ensures y != []
    decreases |rest|
  {
    if rest == [] then
      Block(run)
    else if rest[0] == 0 then
      Block(run) + EncodedRun([], rest[1..])
    else if |run| + 1 < FULL_RUN then
      EncodedRun(run + [rest[0]], rest[1..])
    else if rest[1..] == [] then
      Block(run + [rest[0]])
    else
      Block(run + [rest[0]]) + EncodedRun([], rest[1..])
  }

  function Encoded(x: seq<byte>): seq<byte> {
    EncodedRun([], x)
  }

  /** The classic form, which always ends in the code byte of its last run. */
  function ClassicRun(run: seq<byte>, rest: seq<byte>): (y: seq<byte>)
    requires |run| < FULL_RUN
    ensures y != []
    decreases |rest|
  {
    if rest == [] then
      Block(run)
    else if rest[0] == 0 then
      Block(run) + ClassicRun([], rest[1..])
    else if |run| + 1 < FULL_RUN then
      ClassicRun(run + [rest[0]], rest[1..])
    else
      Block(run + [rest[0]]) + ClassicRun([], rest[1..])
  }

  function Classic(x: seq<byte>): seq<byte> {
    ClassicRun([], x)
  }

  function Prepend(p: seq<byte>, rest: Option<seq<byte>>): Option<seq<byte>> {
    match rest
    case None => None
    case Some(d) => Some(p + d)
  }

  lemma PrependPrepend(p: seq<byte>, q: seq<byte>, rest: Option<seq<byte>>)
    ensures Prepend(p, Prepend(q, rest)) == Prepend(p + q, rest)
    ensures Prepend([], rest) == rest
  {
    if rest.Some? {
      assert p + (q + rest.value) == p + q + rest.value;
      assert [] + rest.value == rest.value;
    }
  }

  function Decoded(y: seq<byte>): Option<seq<byte>>
    decreases |y|
  {
    if y == [] then
      Some([])
    else if y[0] == 0 || y[0] > |y| then
      None
    else
      var rest := y[y[0]..];
      Prepend(y[1..y[0]] + (if y[0] != 0xff && rest != [] then [0] else []), Decoded(rest))
  }

  // ---- properties -------------------------------------------------------------

  /** One block in front of an encoding decodes to its run, the zero it stands for, and the rest. */
  lemma DecodedBlock(run: seq<byte>, rest: seq<byte>)
    requires |run| <= FULL_RUN
    ensures Decoded(Block(run) + rest) ==
            Prepend(run + (if |run| != FULL_RUN && rest != [] then [0] else []), Decoded(rest))
  {
    var y, n := Block(run) + rest, |run| + 1;
    assert y[0] == n && y[1..n] == run && y[n..] == rest;
  }

  lemma DecodedLastBlock(run: seq<byte>)
    requires |run| <= FULL_RUN
    ensures Decoded(Block(run)) == Some(run)
  {
    DecodedBlock(run, []);
    assert Block(run) + [] == Block(run);
    assert run + [] + [] == run;
  }

  lemma Refill(run: seq<byte>, rest: seq<byte>)
    requires rest != []
    ensures run + [rest[0]] + rest[1..] == run + rest
    ensures run + [rest[0]] + [] + rest[1..] == run + rest
  {
  }

  lemma {:induction false} RunRoundTrip(run: seq<byte>, rest: seq<byte>)
    requires |run| < FULL_RUN
    ensures Decoded(EncodedRun(run, rest)) == Some(run + rest)
    decreases |rest|
  {
    if rest == [] {
      DecodedLastBlock(run);
      assert run + rest == run;
    } else {
      Refill(run, rest);
      var tail := rest[1..];
      assert [] + tail == tail;
      if rest[0] == 0 {
        RunRoundTrip([], tail);
        DecodedBlock(run, EncodedRun([], tail));
      } else if |run| + 1 < FULL_RUN {
        RunRoundTrip(run + [rest[0]], tail);
      } else if tail == [] {
        DecodedLastBlock(run + [rest[0]]);
        assert run + [rest[0]] + tail == run + [rest[0]];
      } else {
        RunRoundTrip([], tail);
        DecodedBlock(run + [rest[0]], EncodedRun([], tail));
      }
    }
  }

  lemma RoundTrip(x: seq<byte>)
    ensures Decoded(Encoded(x)) == Some(x)
  {
    RunRoundTrip([], x);
    assert [] + x == x;
  }

  lemma {:induction false} ClassicRunDecodes(run: seq<byte>, rest: seq<byte>)
    requires |run| < FULL_RUN
    ensures Decoded(ClassicRun(run, rest)) == Some(run + rest)
    decreases |rest|
  {
    if rest == [] {
      DecodedLastBlock(run);
      assert run + rest == run;
    } else {
      Refill(run, rest);
      var tail := rest[1..];
      assert [] + tail == tail;
      if rest[0] == 0 {
        ClassicRunDecodes([], tail);
        DecodedBlock(run, ClassicRun([], tail));
      } else if |run| + 1 < FULL_RUN {
        ClassicRunDecodes(run + [rest[0]], tail);
      } else {
        ClassicRunDecodes([], tail);
        DecodedBlock(run + [rest[0]], ClassicRun([], tail));
      }
    }
  }

  lemma ClassicDecodes(x: seq<byte>)
    ensures Decoded(Classic(x)) == Some(x)
  {
    ClassicRunDecodes([], x);
    assert [] + x == x;
  }

  lemma Injective(x: seq<byte>, y: seq<byte>)
    requires Encoded(x) == Encoded(y)
    ensures x == y
  {
    RoundTrip(x);
    RoundTrip(y);
  }

  lemma {:induction false} RunNoZero(run: seq<byte>, rest: seq<byte>)
    requires |run| < FULL_RUN && 0 !in run
    ensures 0 !in EncodedRun(run, rest)
    decreases |rest|
  {
    if rest != [] {
      if rest[0] == 0 {
        RunNoZero([], rest[1..]);
      } else if |run| + 1 < FULL_RUN {
        RunNoZero(run + [rest[0]], rest[1..]);
      } else if rest[1..] != [] {
        RunNoZero([], rest[1..]);
      }
    }
  }

  lemma NoZero(x: seq<byte>)
    ensures 0 !in Encoded(x)
  {
    RunNoZero([], x);
  }

  lemma {:induction false} RunLength(run: seq<byte>, rest: seq<byte>)
    requires |run| < FULL_RUN
    ensures var n := |run| + |rest|; n < |EncodedRun(run, rest)| <= n + n / FULL_RUN + 1
    decreases |rest|
  {
    if rest != [] {
      if rest[0] == 0 {
        RunLength([], rest[1..]);
      } else if |run| + 1 < FULL_RUN {
        RunLength(run + [rest[0]], rest[1..]);
      } else if rest[1..] != [] {
        RunLength([], rest[1..]);
      }
    }
  }

  lemma LengthBound(x: seq<byte>)
    ensures |x| < |Encoded(x)| <= |x| + |x| / FULL_RUN + 1
  {
    RunLength([], x);
  }

  // ---- the loops ----------------------------------------------------------------

  /** `done` holds every closed block; the open run and what is unread are still to come. */
  ghost predicate EncodePoint(total: seq<byte>, done: seq<byte>, run: seq<byte>, rest: seq<byte>, owed: bool)
    requires |run| < FULL_RUN
  {
    total == done + (if owed || run != [] || rest != [] then EncodedRun(run, rest) else [])
  }

  lemma CloseAtZero(total: seq<byte>, done: seq<byte>, run: seq<byte>, rest: seq<byte>, owed: bool)
    requires |run| < FULL_RUN && rest != [] && rest[0] == 0
    requires EncodePoint(total, done, run, rest, owed)
    ensures EncodePoint(total, done + Block(run), [], rest[1..], true)
  {
    Rebracket(done, Block(run), EncodedRun([], rest[1..]));
  }

  lemma ExtendRun(total: seq<byte>, done: seq<byte>, run: seq<byte>, rest: seq<byte>, owed: bool)
    requires |run| + 1 < FULL_RUN && rest != [] && rest[0] != 0
    requires EncodePoint(total, done, run, rest, owed)
    ensures EncodePoint(total, done, run + [rest[0]], rest[1..], owed)
  {
  }

  lemma CloseFull(total: seq<byte>, done: seq<byte>, run: seq<byte>, rest: seq<byte>, owed: bool)
    requires |run| + 1 == FULL_RUN && rest != [] && rest[0] != 0
    requires EncodePoint(total, done, run, rest, owed)
    ensures EncodePoint(total, done + Block(run + [rest[0]]), [], rest[1..], false)
  {
    if rest[1..] == [] {
      assert done + Block(run + [rest[0]]) + [] == done + Block(run + [rest[0]]);
    } else {
      Rebracket(done, Block(run + [rest[0]]), EncodedRun([], rest[1..]));
    }
  }

  /** While bytes remain there is room for the open run, its code and one byte more. */
  lemma Room(total: seq<byte>, done: seq<byte>, run: seq<byte>, rest: seq<byte>, owed: bool)
    requires |run| < FULL_RUN && rest != []
    requires EncodePoint(total, done, run, rest, owed)
    ensures |done| + |run| + 2 <= |total|
  {
    RunLength(run, rest);
  }

  /** `out[codeAt] = code` over the run that stands behind it. */
  method PutCode(out: array<byte>, codeAt: nat, w: nat, code: byte, ghost done: seq<byte>, ghost run: seq<byte>)
    requires codeAt < w <= out.Length && |run| <= FULL_RUN && code as int == |run| + 1
    requires out[..codeAt] == done && out[codeAt + 1..w] == run
    modifies out
    ensures out[..w] == done + Block(run)
  {
    out[codeAt] := code;
  }

  /** `out[w] = b` at the end of the open run. */
  method PutByte(out: array<byte>, codeAt: nat, w: nat, b: byte, ghost done: seq<byte>, ghost run: seq<byte>)
    requires codeAt < w < out.Length
    requires out[..codeAt] == done && out[codeAt + 1..w] == run
    modifies out
    ensures out[..codeAt] == done && out[codeAt + 1..w + 1] == run + [b]
  {
    out[w] := b;
    assert out[codeAt + 1..w] == run;
  }

  method CobsEncode(src: seq<byte>) returns (body: seq<byte>)
    ensures body == Encoded(src)
  {
    var out := new byte[|src| + |src| / FULL_RUN + 1];
    var w, codeAt, code: byte := 1, 0, 1;
    var owed := true; // a final code byte is owed unless a full run just closed
    var i := 0;
    ghost var total, done, run: seq<byte>, rest := Encoded(src), [], [], src;
    LengthBound(src);
    assert EncodePoint(total, [], [], src, true) by { assert [] + total == total; }
    while i < |src|
      invariant 0 <= i <= |src| && rest == src[i..] && |total| <= out.Length
      invariant |run| < FULL_RUN && code as int == |run| + 1 && codeAt == |done| && w == codeAt + code as int
      invariant codeAt <= out.Length && out[..codeAt] == done
      invariant owed || run != [] || i < |src| ==> w <= out.Length && out[codeAt + 1..w] == run
      invariant EncodePoint(total, done, run, rest, owed)
    {
      Room(total, done, run, rest, owed);
      ghost var next := rest[1..];
      assert rest[0] == src[i] && next == src[i + 1..];
      if src[i] == 0 {
        CloseAtZero(total, done, run, rest, owed);
        PutCode(out, codeAt, w, code, done, run);
        done, run := done + Block(run), [];
        owed := true;
        code := 1;
        codeAt := w;
        w := w + 1;
      } else {
        PutByte(out, codeAt, w, src[i], done, run);
        w := w + 1;
        code := code + 1;
        if code == 0xff {
          CloseFull(total, done, run, rest, owed);
          PutCode(out, codeAt, w, code, done, run + [src[i]]);
          done, run := done + Block(run + [src[i]]), [];
          owed := false;
          code := 1;
          codeAt := w;
          w := w + 1;
          if i + 1 < |src| {
            Room(total, done, run, next, owed);
          }
        } else {
          ExtendRun(total, done, run, rest, owed);
          run := run + [src[i]];
        }
      }
      i := i + 1;
      rest := next;
    }
    if owed || code != 1 {
      PutCode(out, codeAt, w, code, done, run);
    } else {
      w := w - 1;
      assert done + [] == done;
    }
    body := out[..w];
  }

  method CobsDecode(src: seq<byte>) returns (body: Option<seq<byte>>)
    ensures body == Decoded(src)
  {
    var out := new byte[|src|];
    var r, w := 0, 0;
    assert src[r..] == src;
    PrependPrepend([], [], Decoded(src));
    while r < |src|
      invariant 0 <= w <= r <= |src|
      invariant Decoded(src) == Prepend(out[..w], Decoded(src[r..]))
    {
      ghost var from, done := r, out[..w];
      var code := src[r];
      assert src[from..][0] == code;
      r := r + 1;
      if code == 0 {
        return None;
      }
      var i := 1;
      while i < code
        invariant 1 <= i <= code && r == from + i <= |src| && w == |done| + i - 1
        invariant out[..w] == done + src[from + 1..r]
      {
        if r >= |src| {
          return None;
        }
        out[w] := src[r];
        w := w + 1;
        r := r + 1;
        i := i + 1;
      }
      ghost var block := src[from + 1..r] + (if code != 0xff && r < |src| then [0] else []);
      assert src[from..][1..code] == src[from + 1..r];
      assert src[from..][code..] == src[r..];
      PrependPrepend(done, block, Decoded(src[r..]));
      if code != 0xff && r < |src| {
        out[w] := 0;
        w := w + 1;
      }
      assert out[..w] == done + block;
    }
    assert src[r..] == [];
    assert out[..w] + [] == out[..w];
    body := Some(out[..w]);
  }

  // ---- the format -------------------------------------------------------------------------------

  lemma {:induction false} RunGrows(run: seq<byte>, s: seq<byte>, t: seq<byte>)
    requires |run| + |s| < FULL_RUN && 0 !in s
    ensures EncodedRun(run, s + t) == EncodedRun(run + s, t)
    decreases |s|
  {
    if s == [] {
      assert s + t == t && run + s == run;
    } else {
      assert (s + t)[0] == s[0] && (s + t)[1..] == s[1..] + t;
      RunGrows(run + [s[0]], s[1..], t);
      assert run + [s[0]] + s[1..] == run + s;
    }
  }

  /**
   * A run of fewer than 254 bytes without a zero is sent behind its length and one, and stands for the zero
   * that ends it; a run of 254 is sent behind 255 and stands for itself, whatever follows.
   */
  lemma EncodedIs(s: seq<byte>, t: seq<byte>)
    requires 0 !in s
    ensures |s| < 254 ==> Encoded(s) == [|s| + 1] + s && Encoded(s + [0] + t) == [|s| + 1] + s + Encoded(t)
    ensures |s| == 254 ==> Encoded(s + t) == [255] + s + (if t == [] then [] else Encoded(t))
  {
    if |s| < 254 {
      RunGrows([], s, []);
      assert s + [] == s && [] + s == s;
      RunGrows([], s, [0] + t);
      assert s + [0] + t == s + ([0] + t) && ([0] + t)[1..] == t;
    } else if |s| == 254 {
      var r, last := s[..253], s[253];
      assert s + t == r + ([last] + t);
      RunGrows([], r, [last] + t);
      assert [] + r == r && r + [last] == s && ([last] + t)[0] == last && ([last] + t)[1..] == t;
      assert last != 0 && [255] + s + [] == [255] + s;
    }
  }
}
