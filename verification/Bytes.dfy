/** Bytes and little-endian integers, as DataView reads and writes them. */
module Bytes {

  type byte = b: int | 0 <= b < 0x100
  type u16 = n: int | 0 <= n < 0x1_0000
  type u32 = n: int | 0 <= n < 0x1_0000_0000

  datatype Option<+T> = None | Some(value: T)

  lemma Rebracket<T>(a: seq<T>, b: seq<T>, c: seq<T>)
    ensures a + (b + c) == a + b + c
  {
  }

  lemma NothingAfter<T>(a: seq<T>)
    ensures a + [] == a && [] + a == a
  {
  }

  function Joined<T>(parts: seq<seq<T>>): seq<T> {
    if parts == [] then [] else parts[0] + Joined(parts[1..])
  }

  function LE16(n: u16): (r: seq<byte>)
    ensures |r| == 2
  {
    [n % 0x100, n / 0x100]
  }

  function LE32(n: u32): (r: seq<byte>)
    ensures |r| == 4
  {
    [n % 0x100, n / 0x100 % 0x100, n / 0x1_0000 % 0x100, n / 0x100_0000]
  }

  /** getUint16(0, true). */
  function U16(s: seq<byte>): (n: u16)
    requires |s| == 2
  {
    var b0: int, b1: int := s[0], s[1];
    b0 + 0x100 * b1
  }

  /** getUint32(0, true). */
  function U32(s: seq<byte>): (n: u32)
    requires |s| == 4
  {
    var b0: int, b1: int, b2: int, b3: int := s[0], s[1], s[2], s[3];
    b0 + 0x100 * b1 + 0x1_0000 * b2 + 0x100_0000 * b3
  }

  lemma LE16RoundTrip(n: u16)
    ensures U16(LE16(n)) == n
  {
  }

  lemma LE32RoundTrip(n: u32)
    ensures U32(LE32(n)) == n
  {
    var q := n / 0x100;
    assert n / 0x1_0000 == q / 0x100;
    assert n / 0x100_0000 == q / 0x100 / 0x100;
  }

  lemma U16RoundTrip(s: seq<byte>)
    requires |s| == 2
    ensures LE16(U16(s)) == s
  {
    var n := U16(s);
    assert n / 0x100 == s[1];
  }

  lemma U32RoundTrip(s: seq<byte>)
    requires |s| == 4
    ensures LE32(U32(s)) == s
  {
    var n := U32(s);
    var b1: int, b2: int, b3: int := s[1], s[2], s[3];
    assert n / 0x100 == b1 + 0x100 * b2 + 0x1_0000 * b3;
    assert n / 0x1_0000 == b2 + 0x100 * b3;
    assert n / 0x100_0000 == b3;
  }

  /** `s` with `b` set at `off`. */
  function Overwritten<T>(s: seq<T>, off: nat, b: seq<T>): (r: seq<T>)
    requires off + |b| <= |s|
    ensures |r| == |s|
  {
    s[..off] + b + s[off + |b|..]
  }
}
