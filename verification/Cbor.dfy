/** The deterministic CBOR profile of the wire (clients/js/cbor.js, RFC 8949 section 4.2.1). */
module Cbor {
  import opened Bytes

  const MAX_U32 := 0xffff_ffff
  const MAX_U64 := 0xffff_ffff_ffff_ffff
  const MAX_SAFE := 0x1f_ffff_ffff_ffff // 2^53 - 1, the largest exact Number

  /** A JavaScript integer argument: a Number, or a BigInt. */
  datatype Arg = Num(n: nat) | Big(n: nat)

  /** The form the decoder gives an argument: a Number up to 32 bits, a BigInt past that. */
  function Canonical(n: nat): Arg {
    if n <= MAX_U32 then Num(n) else Big(n)
  }

  // ---- heads ---------------------------------------------------------------------

  function BE16(n: nat): (s: seq<byte>)
    requires n < 0x1_0000
    ensures |s| == 2
  {
    [n / 0x100, n % 0x100]
  }

  function BE32(n: nat): (s: seq<byte>)
    requires n <= MAX_U32
    ensures |s| == 4
  {
    BE16(n / 0x1_0000) + BE16(n % 0x1_0000)
  }

  function BE64(n: nat): (s: seq<byte>)
    requires n <= MAX_U64
    ensures |s| == 8
  {
    BE32(n / 0x1_0000_0000) + BE32(n % 0x1_0000_0000)
  }

  function ReadBE(s: seq<byte>): (n: nat)
    decreases s
  {
    if s == [] then 0 else 0x100 * ReadBE(s[..|s| - 1]) + s[|s| - 1]
  }

  /** Major type and additional information in one byte. */
  function Initial(major: nat, ai: nat): (b: byte)
    requires major < 8 && ai < 32
    ensures b / 32 == major && b % 32 == ai
  {
    32 * major + ai
  }

  /** `head`; None stands for the RangeError it throws. */
  function Head(major: nat, v: Arg): Option<seq<byte>>
    requires major < 8
  {
    if v.Big? && v.n > MAX_U64 then None
    else if v.n <= 23 then Some([Initial(major, v.n)])
    else if v.n <= 0xff then Some([Initial(major, 24), v.n])
    else if v.n <= 0xffff then Some([Initial(major, 25)] + BE16(v.n))
    else if v.n <= MAX_U32 then Some([Initial(major, 26)] + BE32(v.n))
    else if v.Num? && v.n > MAX_SAFE then None // a Number past 2^53 has already lost its low bits
    else Some([Initial(major, 27)] + BE64(v.n))
  }

  datatype HeadRead = HeadRead(major: nat, ai: nat, arg: nat, end: nat)

  /** How many argument bytes follow the initial byte; None for a reserved or indefinite form. */
  function ArgBytes(ai: nat): Option<nat> {
    if ai <= 23 then Some(0)
    else if ai == 24 then Some(1)
    else if ai == 25 then Some(2)
    else if ai == 26 then Some(4)
    else if ai == 27 then Some(8)
    else None
  }

  /** The head at `pos`; None when it is malformed or runs past the buffer. */
  function ReadHead(buf: seq<byte>, pos: nat): (r: Option<HeadRead>)
    ensures r.Some? ==> pos < r.value.end <= |buf| && r.value.major < 8
  {
    if pos >= |buf| then None
    else
      var ib := buf[pos];
      match ArgBytes(ib % 32)
      case None => None
      case Some(k) =>
        if pos + 1 + k > |buf| then None
        else Some(HeadRead(ib / 32, ib % 32, if k == 0 then ib % 32 else ReadBE(buf[pos + 1..pos + 1 + k]), pos + 1 + k))
  }

  lemma ReadBE1(s: seq<byte>)
    requires |s| == 1
    ensures ReadBE(s) == s[0]
  {
    assert s[..0] == [];
  }

  lemma ReadBE2(s: seq<byte>)
    requires |s| == 2
    ensures ReadBE(s) < 0x1_0000 && BE16(ReadBE(s)) == s
  {
    ReadBE1(s[..1]);
  }

  lemma {:induction false} ReadBEConcat(a: seq<byte>, b: seq<byte>)
    ensures |b| == 2 ==> ReadBE(a + b) == 0x1_0000 * ReadBE(a) + ReadBE(b)
    ensures |b| == 4 ==> ReadBE(a + b) == 0x1_0000_0000 * ReadBE(a) + ReadBE(b)
    decreases |b|
  {
    if |b| == 2 {
      var ab := a + b;
      assert ab[..|ab| - 1][..|ab| - 2] == a;
      assert b[..1][..0] == [];
      assert ReadBE(ab) == 0x100 * ReadBE(ab[..|ab| - 1]) + b[1];
      assert ReadBE(ab[..|ab| - 1]) == 0x100 * ReadBE(a) + b[0];
      assert ReadBE(b) == 0x100 * ReadBE(b[..1]) + b[1];
    } else if |b| == 4 {
      assert a + b == (a + b[..2]) + b[2..];
      ReadBEConcat(a + b[..2], b[2..]);
      ReadBEConcat(a, b[..2]);
      assert b == b[..2] + b[2..];
      ReadBEConcat(b[..2], b[2..]);
    }
  }

  lemma ReadBE4(s: seq<byte>)
    requires |s| == 4
    ensures ReadBE(s) <= MAX_U32 && BE32(ReadBE(s)) == s
  {
    assert s == s[..2] + s[2..];
    ReadBEConcat(s[..2], s[2..]);
    ReadBE2(s[..2]);
    ReadBE2(s[2..]);
    var hi, lo := ReadBE(s[..2]), ReadBE(s[2..]);
    assert ReadBE(s) / 0x1_0000 == hi && ReadBE(s) % 0x1_0000 == lo;
  }

  lemma ReadBE8(s: seq<byte>)
    requires |s| == 8
    ensures ReadBE(s) <= MAX_U64 && BE64(ReadBE(s)) == s
  {
    assert s == s[..4] + s[4..];
    ReadBEConcat(s[..4], s[4..]);
    ReadBE4(s[..4]);
    ReadBE4(s[4..]);
    var hi, lo := ReadBE(s[..4]), ReadBE(s[4..]);
    assert ReadBE(s) / 0x1_0000_0000 == hi && ReadBE(s) % 0x1_0000_0000 == lo;
  }

  lemma BE16Read(n: nat)
    requires n < 0x1_0000
    ensures ReadBE(BE16(n)) == n
  {
    ReadBE1(BE16(n)[..1]);
  }

  lemma BE32Read(n: nat)
    requires n <= MAX_U32
    ensures ReadBE(BE32(n)) == n
  {
    ReadBEConcat(BE16(n / 0x1_0000), BE16(n % 0x1_0000));
    BE16Read(n / 0x1_0000);
    BE16Read(n % 0x1_0000);
  }

  lemma BE64Read(n: nat)
    requires n <= MAX_U64
    ensures ReadBE(BE64(n)) == n
  {
    ReadBEConcat(BE32(n / 0x1_0000_0000), BE32(n % 0x1_0000_0000));
    BE32Read(n / 0x1_0000_0000);
    BE32Read(n % 0x1_0000_0000);
  }

  /** A head in front of anything reads back as its major type and argument, and ends where it ends. */
  lemma HeadRoundTrip(major: nat, v: Arg, before: seq<byte>, after: seq<byte>)
    requires major < 8 && Head(major, v).Some?
    ensures var h := Head(major, v).value;
            var r := ReadHead(before + h + after, |before|);
            r.Some? && r.value.major == major && r.value.arg == v.n && r.value.end == |before| + |h|
            && r.value.ai == h[0] % 32
  {
    var h := Head(major, v).value;
    var buf, pos := before + h + after, |before|;
    assert buf[pos] == h[0];
    assert buf[pos + 1..pos + |h|] == h[1..];
    if v.n > 23 {
      if v.n <= 0xff {
        ReadBE1(h[1..]);
      } else if v.n <= 0xffff {
        assert h[1..] == BE16(v.n);
        BE16Read(v.n);
      } else if v.n <= MAX_U32 {
        assert h[1..] == BE32(v.n);
        BE32Read(v.n);
      } else {
        assert h[1..] == BE64(v.n);
        BE64Read(v.n);
      }
    }
  }

  /** Of all heads the decoder gives the same argument, `head` writes the only shortest one. */
  lemma HeadShortest(buf: seq<byte>, pos: nat)
    requires ReadHead(buf, pos).Some?
    ensures var r := ReadHead(buf, pos).value;
            var h := Head(r.major, Canonical(r.arg));
            h.Some? && |h.value| <= r.end - pos
            && (|h.value| == r.end - pos ==> h.value == buf[pos..r.end])
  {
    var r := ReadHead(buf, pos).value;
    var tail := buf[pos + 1..r.end];
    assert buf[pos..r.end] == [buf[pos]] + tail;
    assert buf[pos] == Initial(r.major, r.ai);
    if r.ai == 24 {
      ReadBE1(tail);
    } else if r.ai == 25 {
      ReadBE2(tail);
    } else if r.ai == 26 {
      ReadBE4(tail);
    } else if r.ai == 27 {
      ReadBE8(tail);
    }
  }

  // ---- values ----------------------------------------------------------------------

  /** What the wire carries. Text is its UTF-8 bytes, a float its four raw bytes. */
  datatype Value =
    | UInt(a: Arg)
    | NInt(a: Arg) // -1 - a
    | Bytes(b: seq<byte>)
    | Text(b: seq<byte>)
    | Arr(elems: seq<Value>)
    | Map(pairs: seq<Pair>)
    | Bool(on: bool)
    | Null
    | F32(b0: byte, b1: byte, b2: byte, b3: byte)

  datatype Pair = Pair(key: Value, val: Value)

  predicate IntKeyed(pairs: seq<Pair>) {
    forall i :: 0 <= i < |pairs| ==> pairs[i].key.UInt?
  }

  /** The check `cbMap` makes before it writes anything. */
  predicate Ascending(pairs: seq<Pair>)
    requires IntKeyed(pairs)
  {
    forall i :: 1 <= i < |pairs| ==> pairs[i - 1].key.a.n < pairs[i].key.a.n
  }

  function Append(a: Option<seq<byte>>, b: Option<seq<byte>>): Option<seq<byte>> {
    if a.Some? && b.Some? then Some(a.value + b.value) else None
  }

  /** The encoders, put together; None where one of them throws. */
  function Encoded(v: Value): Option<seq<byte>>
    decreases v, 1
  {
    match v
    case UInt(a) => Head(0, a)
    case NInt(a) => Head(1, a)
    case Bytes(b) => Append(Head(2, Num(|b|)), Some(b))
    case Text(b) => Append(Head(3, Num(|b|)), Some(b))
    case Arr(elems) => Append(Head(4, Num(|elems|)), EncodedAll(elems))
    case Map(pairs) =>
      if IntKeyed(pairs) && Ascending(pairs) then Append(Head(5, Num(|pairs|)), EncodedPairs(pairs)) else None
    case Bool(on) => Some([if on then 0xf5 else 0xf4])
    case Null => Some([0xf6])
    case F32(b0, b1, b2, b3) => Some([0xfa, b0, b1, b2, b3])
  }

  function EncodedAll(vs: seq<Value>): Option<seq<byte>>
    decreases vs, 0
  {
    if vs == [] then Some([]) else Append(Encoded(vs[0]), EncodedAll(vs[1..]))
  }

  function EncodedPairs(ps: seq<Pair>): Option<seq<byte>>
    decreases ps, 0
  {
    if ps == [] then Some([])
    else Append(EncodedPair(ps[0]), EncodedPairs(ps[1..]))
  }

  function EncodedPair(p: Pair): Option<seq<byte>>
    decreases p, 2
  {
    Append(Encoded(p.key), Encoded(p.val))
  }

  datatype Item = Item(v: Value, end: nat)
  datatype Items = Items(vs: seq<Value>, end: nat)
  datatype Pairs = Pairs(ps: seq<Pair>, end: nat)

  /** Map.set: a key already there keeps its place and takes the new value. */
  function MapSet(ps: seq<Pair>, k: Value, v: Value): seq<Pair> {
    if ps == [] then [Pair(k, v)]
    else if ps[0].key == k then [Pair(k, v)] + ps[1..]
    else [ps[0]] + MapSet(ps[1..], k, v)
  }

  /** The item at `pos` and where it ends; None when it is malformed, outside the profile or cut short. */
  function Decoded(buf: seq<byte>, pos: nat): (r: Option<Item>)
    ensures r.Some? ==> pos < r.value.end <= |buf|
    decreases |buf| - pos, 0
  {
    if pos >= |buf| then None
    else if buf[pos] / 32 == 7 then
      var ai := buf[pos] % 32;
      if ai == 20 then Some(Item(Bool(false), pos + 1))
      else if ai == 21 then Some(Item(Bool(true), pos + 1))
      else if ai == 22 then Some(Item(Null, pos + 1))
      else if ai == 26 && pos + 5 <= |buf| then
        Some(Item(F32(buf[pos + 1], buf[pos + 2], buf[pos + 3], buf[pos + 4]), pos + 5))
      else None
    else
      match ReadHead(buf, pos)
      case None => None
      case Some(h) => DecodedBody(buf, h)
  }

  /** The item behind a head of major type 0 to 6. */
  function DecodedBody(buf: seq<byte>, h: HeadRead): (r: Option<Item>)
    requires h.end <= |buf|
    ensures r.Some? ==> h.end <= r.value.end <= |buf|
    decreases |buf| - h.end, h.arg + 2
  {
    if h.major == 0 then Some(Item(UInt(Canonical(h.arg)), h.end))
    else if h.major == 1 then Some(Item(NInt(Canonical(h.arg)), h.end))
    else if h.arg > MAX_U32 || h.major == 6 then None
    else if h.major == 2 then
      if h.end + h.arg > |buf| then None else Some(Item(Bytes(buf[h.end..h.end + h.arg]), h.end + h.arg))
    else if h.major == 3 then
      if h.end + h.arg > |buf| then None else Some(Item(Text(buf[h.end..h.end + h.arg]), h.end + h.arg))
    else if h.major == 4 then
      match DecodedAll(buf, h.end, h.arg)
      case None => None
      case Some(items) => Some(Item(Arr(items.vs), items.end))
    else
      match DecodedPairs(buf, h.end, h.arg, [])
      case None => None
      case Some(pairs) => Some(Item(Map(pairs.ps), pairs.end))
  }

  function DecodedAll(buf: seq<byte>, pos: nat, n: nat): (r: Option<Items>)
    ensures r.Some? ==> pos <= r.value.end && (r.value.end <= |buf| || n == 0)
    ensures r.Some? && pos <= |buf| ==> r.value.end <= |buf|
    decreases |buf| - pos, n + 1
  {
    if n == 0 then Some(Items([], pos))
    else
      match Decoded(buf, pos)
      case None => None
      case Some(first) =>
        match DecodedAll(buf, first.end, n - 1)
        case None => None
        case Some(rest) => Some(Items([first.v] + rest.vs, rest.end))
  }

  datatype PairRead = PairRead(k: Value, v: Value, end: nat)

  /** A key and its value; keys other than integers are outside the profile. */
  function DecodedPair(buf: seq<byte>, pos: nat): (r: Option<PairRead>)
    ensures r.Some? ==> pos < r.value.end <= |buf|
    decreases |buf| - pos, 1
  {
    match Decoded(buf, pos)
    case None => None
    case Some(k) =>
      match Decoded(buf, k.end)
      case None => None
      case Some(v) => if k.v.UInt? || k.v.NInt? then Some(PairRead(k.v, v.v, v.end)) else None
  }

  /** `n` more pairs, each set into the map read so far. */
  function DecodedPairs(buf: seq<byte>, pos: nat, n: nat, sofar: seq<Pair>): (r: Option<Pairs>)
    ensures r.Some? ==> pos <= r.value.end && (r.value.end <= |buf| || n == 0)
    ensures r.Some? && pos <= |buf| ==> r.value.end <= |buf|
    decreases |buf| - pos, n + 1
  {
    if n == 0 then Some(Pairs(sofar, pos))
    else
      match DecodedPair(buf, pos)
      case None => None
      case Some(p) => DecodedPairs(buf, p.end, n - 1, MapSet(sofar, p.k, p.v))
  }

  // ---- round trip ------------------------------------------------------------------------

  /** Lengths the decoder does not refuse. */
  predicate Small(v: Value)
    decreases v, 1
  {
    match v
    case Bytes(b) => |b| <= MAX_U32
    case Text(b) => |b| <= MAX_U32
    case Arr(elems) => |elems| <= MAX_U32 && AllSmall(elems)
    case Map(pairs) => |pairs| <= MAX_U32 && PairsSmall(pairs)
    case _ => true
  }

  predicate AllSmall(vs: seq<Value>)
    decreases vs, 0
  {
    vs == [] || (Small(vs[0]) && AllSmall(vs[1..]))
  }

  predicate PairsSmall(ps: seq<Pair>)
    decreases ps, 0
  {
    ps == [] || (PairSmall(ps[0]) && PairsSmall(ps[1..]))
  }

  predicate PairSmall(p: Pair)
    decreases p, 2
  {
    Small(p.key) && Small(p.val)
  }

  /** The value as the decoder represents it: every integer in its canonical form. */
  function Canon(v: Value): Value
    decreases v, 1
  {
    match v
    case UInt(a) => UInt(Canonical(a.n))
    case NInt(a) => NInt(Canonical(a.n))
    case Arr(elems) => Arr(CanonAll(elems))
    case Map(pairs) => Map(CanonPairs(pairs))
    case _ => v
  }

  function CanonAll(vs: seq<Value>): (r: seq<Value>)
    ensures |r| == |vs|
    decreases vs, 0
  {
    if vs == [] then [] else [Canon(vs[0])] + CanonAll(vs[1..])
  }

  function CanonPairs(ps: seq<Pair>): (r: seq<Pair>)
    ensures |r| == |ps|
    decreases ps, 0
  {
    if ps == [] then [] else [CanonPair(ps[0])] + CanonPairs(ps[1..])
  }

  function CanonPair(p: Pair): Pair
    decreases p, 2
  {
    Pair(Canon(p.key), Canon(p.val))
  }

  /** A key past every key of the map goes to its end. */
  lemma {:induction false} MapSetNew(ps: seq<Pair>, k: Value, v: Value)
    requires forall i :: 0 <= i < |ps| ==> ps[i].key != k
    ensures MapSet(ps, k, v) == ps + [Pair(k, v)]
  {
    if ps != [] {
      MapSetNew(ps[1..], k, v);
      assert ps == [ps[0]] + ps[1..];
    }
  }

  /** The encoding of `v` stands in `buf` at `pos`. */
  ghost predicate StandsAt(buf: seq<byte>, pos: nat, enc: seq<byte>) {
    pos + |enc| <= |buf| && buf[pos..pos + |enc|] == enc
  }

  lemma StandsSplit(buf: seq<byte>, pos: nat, a: seq<byte>, b: seq<byte>)
    requires StandsAt(buf, pos, a + b)
    ensures StandsAt(buf, pos, a) && StandsAt(buf, pos + |a|, b)
  {
    var s := buf[pos..pos + |a| + |b|];
    assert s[..|a|] == buf[pos..pos + |a|];
    assert s[|a|..] == buf[pos + |a|..pos + |a| + |b|];
  }

  /** A head that stands at `pos` is the one that is read there. */
  lemma HeadStands(buf: seq<byte>, pos: nat, major: nat, v: Arg, h: seq<byte>) returns (r: HeadRead)
    requires major < 7 && Head(major, v) == Some(h) && StandsAt(buf, pos, h)
    ensures r.major == major && r.arg == v.n && r.end == pos + |h| <= |buf|
    ensures Decoded(buf, pos) == DecodedBody(buf, r)
  {
    HeadRoundTrip(major, v, buf[..pos], buf[pos + |h|..]);
    assert buf == buf[..pos] + h + buf[pos + |h|..];
    assert buf[pos] == buf[pos..pos + |h|][0];
    r := ReadHead(buf, pos).value;
  }

  lemma ArrayBody(elems: seq<Value>, buf: seq<byte>, r: HeadRead, end: nat)
    requires r.major == 4 && r.arg == |elems| <= MAX_U32 && r.end <= |buf|
    requires DecodedAll(buf, r.end, |elems|) == Some(Items(CanonAll(elems), end))
    ensures DecodedBody(buf, r) == Some(Item(Canon(Arr(elems)), end))
  {
  }

  lemma MapBody(pairs: seq<Pair>, buf: seq<byte>, r: HeadRead, end: nat)
    requires r.major == 5 && r.arg == |pairs| <= MAX_U32 && r.end <= |buf|
    requires DecodedPairs(buf, r.end, |pairs|, []) == Some(Pairs([] + CanonPairs(pairs), end))
    ensures DecodedBody(buf, r) == Some(Item(Canon(Map(pairs)), end))
  {
    NothingAfter(CanonPairs(pairs));
  }

  /** The head of an array or a map and what stands behind it. */
  lemma ContainerStands(buf: seq<byte>, pos: nat, major: nat, n: nat, body: seq<byte>, enc: seq<byte>)
    returns (r: HeadRead)
    requires major < 7 && Append(Head(major, Num(n)), Some(body)) == Some(enc) && StandsAt(buf, pos, enc)
    ensures r.major == major && r.arg == n && r.end <= |buf| && r.end + |body| == pos + |enc|
    ensures Decoded(buf, pos) == DecodedBody(buf, r) && StandsAt(buf, r.end, body)
  {
    var h := Head(major, Num(n)).value;
    StandsSplit(buf, pos, h, body);
    r := HeadStands(buf, pos, major, Num(n), h);
  }

  lemma IntStands(v: Value, buf: seq<byte>, pos: nat, enc: seq<byte>)
    requires v.UInt? || v.NInt?
    requires Encoded(v) == Some(enc) && StandsAt(buf, pos, enc)
    ensures Decoded(buf, pos) == Some(Item(Canon(v), pos + |enc|))
  {
    var r := HeadStands(buf, pos, if v.UInt? then 0 else 1, v.a, enc);
  }

  lemma StringStands(v: Value, buf: seq<byte>, pos: nat, enc: seq<byte>)
    requires (v.Bytes? || v.Text?) && |v.b| <= MAX_U32
    requires Encoded(v) == Some(enc) && StandsAt(buf, pos, enc)
    ensures Decoded(buf, pos) == Some(Item(v, pos + |enc|))
  {
    hide Head, ReadHead;
    var r := ContainerStands(buf, pos, if v.Bytes? then 2 else 3, |v.b|, v.b, enc);
  }

  lemma SimpleStands(v: Value, buf: seq<byte>, pos: nat, enc: seq<byte>)
    requires v.Bool? || v.Null? || v.F32?
    requires Encoded(v) == Some(enc) && StandsAt(buf, pos, enc)
    ensures Decoded(buf, pos) == Some(Item(v, pos + |enc|))
  {
    assert buf[pos] == buf[pos..pos + |enc|][0];
    if v.F32? {
      var s := buf[pos..pos + 5];
      assert buf[pos + 1] == s[1] && buf[pos + 2] == s[2] && buf[pos + 3] == s[3] && buf[pos + 4] == s[4];
      assert buf[pos] == enc[0] && buf[pos + 1] == enc[1] && buf[pos + 2] == enc[2];
      assert buf[pos + 3] == enc[3] && buf[pos + 4] == enc[4];
    }
  }

  lemma LeafStands(v: Value, buf: seq<byte>, pos: nat, enc: seq<byte>)
    requires !v.Arr? && !v.Map? && Small(v)
    requires Encoded(v) == Some(enc) && StandsAt(buf, pos, enc)
    ensures Decoded(buf, pos) == Some(Item(Canon(v), pos + |enc|))
  {
    if v.UInt? || v.NInt? {
      IntStands(v, buf, pos, enc);
    } else if v.Bytes? || v.Text? {
      StringStands(v, buf, pos, enc);
    } else {
      SimpleStands(v, buf, pos, enc);
    }
  }

  lemma {:induction false} RoundTripAt(v: Value, buf: seq<byte>, pos: nat, enc: seq<byte>)
    requires Small(v) && Encoded(v) == Some(enc) && StandsAt(buf, pos, enc)
    ensures Decoded(buf, pos) == Some(Item(Canon(v), pos + |enc|))
    decreases v, 1
  {
    if v.Arr? {
      RoundTripArray(v, buf, pos, enc);
    } else if v.Map? {
      RoundTripMap(v, buf, pos, enc);
    } else {
      LeafStands(v, buf, pos, enc);
    }
  }

  lemma {:induction false} RoundTripArray(v: Value, buf: seq<byte>, pos: nat, enc: seq<byte>)
    requires v.Arr? && Small(v) && Encoded(v) == Some(enc) && StandsAt(buf, pos, enc)
    ensures Decoded(buf, pos) == Some(Item(Canon(v), pos + |enc|))
    decreases v, 0
  {
    var body := EncodedAll(v.elems).value;
    var r := ContainerStands(buf, pos, 4, |v.elems|, body, enc);
    RoundTripAll(v.elems, buf, r.end, body);
    ArrayBody(v.elems, buf, r, pos + |enc|);
  }

  lemma {:induction false} RoundTripMap(v: Value, buf: seq<byte>, pos: nat, enc: seq<byte>)
    requires v.Map? && Small(v) && Encoded(v) == Some(enc) && StandsAt(buf, pos, enc)
    ensures Decoded(buf, pos) == Some(Item(Canon(v), pos + |enc|))
    decreases v, 0
  {
    var body := EncodedPairs(v.pairs).value;
    var r := ContainerStands(buf, pos, 5, |v.pairs|, body, enc);
    RoundTripPairs(v.pairs, buf, r.end, body, []);
    MapBody(v.pairs, buf, r, pos + |enc|);
  }

  lemma {:induction false} RoundTripAll(vs: seq<Value>, buf: seq<byte>, pos: nat, enc: seq<byte>)
    requires AllSmall(vs) && EncodedAll(vs) == Some(enc) && StandsAt(buf, pos, enc)
    ensures DecodedAll(buf, pos, |vs|) == Some(Items(CanonAll(vs), pos + |enc|))
    decreases vs, 0
  {
    if vs != [] {
      var v, more := vs[0], vs[1..];
      var a, b := Encoded(v).value, EncodedAll(more).value;
      StandsSplit(buf, pos, a, b);
      RoundTripAt(v, buf, pos, a);
      RoundTripAll(more, buf, pos + |a|, b);
      ItemsStep(buf, pos, |more|, Canon(v), pos + |a|, CanonAll(more), pos + |enc|);
    }
  }

  lemma {:induction false} RoundTripPair(p: Pair, buf: seq<byte>, pos: nat, enc: seq<byte>)
    requires PairSmall(p) && EncodedPair(p) == Some(enc) && StandsAt(buf, pos, enc) && p.key.UInt?
    ensures DecodedPair(buf, pos) == Some(PairRead(Canon(p.key), Canon(p.val), pos + |enc|))
    decreases p, 2
  {
    var k, v := Encoded(p.key).value, Encoded(p.val).value;
    StandsSplit(buf, pos, k, v);
    RoundTripAt(p.key, buf, pos, k);
    RoundTripAt(p.val, buf, pos + |k|, v);
    PairStands(buf, pos, Canon(p.key), pos + |k|, Canon(p.val), pos + |enc|);
  }

  /** Every key of the map read so far is below `n`. */
  ghost predicate Below(sofar: seq<Pair>, n: nat) {
    forall i :: 0 <= i < |sofar| ==> sofar[i].key.UInt? && sofar[i].key.a.n < n
  }

  lemma AscendingRest(ps: seq<Pair>)
    requires ps != [] && IntKeyed(ps) && Ascending(ps)
    ensures IntKeyed(ps[1..]) && Ascending(ps[1..])
  {
    var rest := ps[1..];
    assert forall j :: 0 <= j < |rest| ==> rest[j] == ps[j + 1];
  }

  lemma PairStands(buf: seq<byte>, pos: nat, k: Value, mid: nat, v: Value, end: nat)
    requires Decoded(buf, pos) == Some(Item(k, mid)) && Decoded(buf, mid) == Some(Item(v, end)) && k.UInt?
    ensures DecodedPair(buf, pos) == Some(PairRead(k, v, end))
  {
  }

  lemma ItemsStep(buf: seq<byte>, pos: nat, n: nat, v: Value, mid: nat, vs: seq<Value>, end: nat)
    requires Decoded(buf, pos) == Some(Item(v, mid)) && DecodedAll(buf, mid, n) == Some(Items(vs, end))
    ensures DecodedAll(buf, pos, n + 1) == Some(Items([v] + vs, end))
  {
  }

  lemma EncodedPairsStep(ps: seq<Pair>, enc: seq<byte>) returns (a: seq<byte>, b: seq<byte>)
    requires ps != [] && EncodedPairs(ps) == Some(enc)
    ensures EncodedPair(ps[0]) == Some(a) && EncodedPairs(ps[1..]) == Some(b) && enc == a + b
  {
    a, b := EncodedPair(ps[0]).value, EncodedPairs(ps[1..]).value;
  }

  lemma CanonUInt(p: Pair)
    requires p.key.UInt?
    ensures CanonPair(p) == Pair(UInt(Canonical(p.key.a.n)), Canon(p.val))
  {
  }

  lemma CanonPairsStep(ps: seq<Pair>, sofar: seq<Pair>)
    requires ps != []
    ensures sofar + CanonPairs(ps) == (sofar + [CanonPair(ps[0])]) + CanonPairs(ps[1..])
  {
    Rebracket(sofar, [CanonPair(ps[0])], CanonPairs(ps[1..]));
  }

  /** The first pair of a map is read and set behind the pairs read so far. */
  lemma {:induction false} RoundTripFirst(ps: seq<Pair>, buf: seq<byte>, pos: nat, a: seq<byte>, sofar: seq<Pair>)
    requires ps != [] && PairSmall(ps[0]) && EncodedPair(ps[0]) == Some(a) && StandsAt(buf, pos, a)
    requires ps[0].key.UInt? && Below(sofar, ps[0].key.a.n)
    ensures DecodedPairs(buf, pos, |ps|, sofar) == DecodedPairs(buf, pos + |a|, |ps| - 1, sofar + [CanonPair(ps[0])])
    ensures Below(sofar + [CanonPair(ps[0])], ps[0].key.a.n + 1)
    decreases ps[0], 3
  {
    hide StandsAt, PairSmall, DecodedPair, EncodedPair, Canon, MapSet;
    RoundTripPair(ps[0], buf, pos, a);
    CanonUInt(ps[0]);
    var cp := CanonPair(ps[0]);
    MapSetNew(sofar, cp.key, cp.val);
  }

  lemma {:induction false} RoundTripPairs(ps: seq<Pair>, buf: seq<byte>, pos: nat, enc: seq<byte>, sofar: seq<Pair>)
    requires PairsSmall(ps) && EncodedPairs(ps) == Some(enc) && StandsAt(buf, pos, enc)
    requires IntKeyed(ps) && Ascending(ps) && (ps != [] ==> Below(sofar, ps[0].key.a.n))
    ensures DecodedPairs(buf, pos, |ps|, sofar) == Some(Pairs(sofar + CanonPairs(ps), pos + |enc|))
    decreases ps, 0
  {
    if ps == [] {
      NothingAfter(sofar);
    } else {
      var a, b := EncodedPairsStep(ps, enc);
      StandsSplit(buf, pos, a, b);
      RoundTripFirst(ps, buf, pos, a, sofar);
      AscendingRest(ps);
      CanonPairsStep(ps, sofar);
      RoundTripPairs(ps[1..], buf, pos + |a|, b, sofar + [CanonPair(ps[0])]);
    }
  }

  /** Decoding an encoding followed by any bytes returns the value and stops exactly at its end. */
  lemma RoundTrip(v: Value, after: seq<byte>)
    requires Small(v) && Encoded(v).Some?
    ensures Decoded(Encoded(v).value + after, 0) == Some(Item(Canon(v), |Encoded(v).value|))
  {
    var enc := Encoded(v).value;
    assert (enc + after)[0..|enc|] == enc;
    RoundTripAt(v, enc + after, 0, enc);
  }

  /** No encoding is a proper prefix of another: equal encodings mean equal values. */
  lemma PrefixFree(v: Value, w: Value)
    requires Small(v) && Small(w) && Encoded(v).Some? && Encoded(w).Some?
    requires Encoded(v).value <= Encoded(w).value
    ensures Encoded(v) == Encoded(w) && Canon(v) == Canon(w)
  {
    var a, b := Encoded(v).value, Encoded(w).value;
    RoundTrip(v, b[|a|..]);
    assert a + b[|a|..] == b;
    RoundTrip(w, []);
    NothingAfter(b);
  }

  lemma CanonicalHead(major: nat, a: Arg)
    requires major < 8 && Head(major, a).Some?
    ensures Head(major, Canonical(a.n)) == Head(major, a)
  {
  }

  /** The canonical form of a value has the same encoding. */
  lemma {:induction false} EncodedCanon(v: Value)
    requires Encoded(v).Some?
    ensures Encoded(Canon(v)) == Encoded(v)
    decreases v, 1
  {
    match v
    case UInt(a) => CanonicalHead(0, a);
    case NInt(a) => CanonicalHead(1, a);
    case Arr(elems) => EncodedCanonAll(elems);
    case Map(pairs) =>
      EncodedCanonPairs(pairs);
      CanonKeys(pairs);
    case _ =>
  }

  lemma {:induction false} CanonKeys(ps: seq<Pair>)
    requires IntKeyed(ps)
    ensures IntKeyed(CanonPairs(ps))
    ensures forall i :: 0 <= i < |ps| ==> CanonPairs(ps)[i].key.a.n == ps[i].key.a.n
    decreases |ps|
  {
    if ps != [] {
      var more := ps[1..];
      assert forall i :: 0 <= i < |more| ==> more[i] == ps[i + 1];
      CanonKeys(more);
      CanonUInt(ps[0]);
      var first, rest := CanonPair(ps[0]), CanonPairs(more);
      assert CanonPairs(ps) == [first] + rest;
      assert forall i :: 1 <= i < |ps| ==> ([first] + rest)[i] == rest[i - 1] && ps[i] == more[i - 1];
    }
  }

  lemma {:induction false} EncodedCanonAll(vs: seq<Value>)
    requires EncodedAll(vs).Some?
    ensures EncodedAll(CanonAll(vs)) == EncodedAll(vs)
    decreases vs, 0
  {
    if vs != [] {
      EncodedCanon(vs[0]);
      EncodedCanonAll(vs[1..]);
      assert CanonAll(vs)[1..] == CanonAll(vs[1..]);
    }
  }

  lemma {:induction false} EncodedCanonPairs(ps: seq<Pair>)
    requires EncodedPairs(ps).Some?
    ensures EncodedPairs(CanonPairs(ps)) == EncodedPairs(ps)
    decreases ps, 0
  {
    if ps != [] {
      EncodedCanonPair(ps[0]);
      EncodedCanonPairs(ps[1..]);
      assert CanonPairs(ps)[1..] == CanonPairs(ps[1..]);
    }
  }

  lemma {:induction false} EncodedCanonPair(p: Pair)
    requires EncodedPair(p).Some?
    ensures EncodedPair(CanonPair(p)) == EncodedPair(p)
    decreases p, 2
  {
    EncodedCanon(p.key);
    EncodedCanon(p.val);
  }

  /** Two values share an encoding exactly when the decoder cannot tell them apart. */
  lemma Injective(v: Value, w: Value)
    requires Small(v) && Small(w) && Encoded(v).Some? && Encoded(w).Some?
    ensures Encoded(v) == Encoded(w) <==> Canon(v) == Canon(w)
  {
    if Encoded(v) == Encoded(w) {
      PrefixFree(v, w);
    }
    EncodedCanon(v);
    EncodedCanon(w);
  }

  // ---- the loops ---------------------------------------------------------------------------

  lemma {:induction false} JoinedLast(parts: seq<seq<byte>>, p: seq<byte>)
    ensures Joined(parts + [p]) == Joined(parts) + p
  {
    if parts == [] {
      assert parts + [p] == [p] && [p][1..] == [];
      NothingAfter(p);
    } else {
      assert (parts + [p])[0] == parts[0] && (parts + [p])[1..] == parts[1..] + [p];
      JoinedLast(parts[1..], p);
      Rebracket(parts[0], Joined(parts[1..]), p);
    }
  }

  method ConcatBytes(parts: seq<seq<byte>>) returns (out: seq<byte>)
    ensures out == Joined(parts)
  {
    out := [];
    var i := 0;
    while i < |parts|
      invariant 0 <= i <= |parts| && out == Joined(parts[..i])
    {
      JoinedLast(parts[..i], parts[i]);
      assert parts[..i + 1] == parts[..i] + [parts[i]];
      out := out + parts[i];
      i := i + 1;
    }
    assert parts[..i] == parts;
  }

  /** A map pair as `cbMap` takes it: an integer key and a value already encoded. */
  datatype RawPair = RawPair(key: Arg, enc: seq<byte>)

  function RawPairs(ps: seq<RawPair>): Option<seq<byte>> {
    if ps == [] then Some([]) else Append(Append(Head(0, ps[0].key), Some(ps[0].enc)), RawPairs(ps[1..]))
  }

  predicate RawAscending(ps: seq<RawPair>) {
    forall i :: 1 <= i < |ps| ==> ps[i - 1].key.n < ps[i].key.n
  }

  function RawMap(ps: seq<RawPair>): Option<seq<byte>> {
    if RawAscending(ps) then Append(Head(5, Num(|ps|)), RawPairs(ps)) else None
  }

  ghost predicate RawOf(ps: seq<Pair>, raw: seq<RawPair>) {
    && IntKeyed(ps) && |raw| == |ps|
    && forall i :: 0 <= i < |ps| ==> raw[i].key == ps[i].key.a && Encoded(ps[i].val) == Some(raw[i].enc)
  }

  lemma {:induction false} RawPairsArePairs(ps: seq<Pair>, raw: seq<RawPair>)
    requires RawOf(ps, raw)
    ensures RawPairs(raw) == EncodedPairs(ps)
    decreases |ps|
  {
    if ps != [] {
      var more, rest := ps[1..], raw[1..];
      assert forall i :: 0 <= i < |more| ==> more[i] == ps[i + 1] && rest[i] == raw[i + 1];
      RawPairsArePairs(more, rest);
      assert ps[0].key == UInt(raw[0].key);
      assert EncodedPair(ps[0]) == Append(Head(0, raw[0].key), Some(raw[0].enc));
    }
  }

  /** What `cbMap` writes from the encodings of the values is the encoding of the map. */
  lemma RawMapIsMap(ps: seq<Pair>, raw: seq<RawPair>)
    requires RawOf(ps, raw)
    ensures RawMap(raw) == Encoded(Map(ps))
  {
    RawPairsArePairs(ps, raw);
    assert forall i :: 0 <= i < |ps| ==> raw[i].key == ps[i].key.a;
  }

  method CbMap(ps: seq<RawPair>) returns (r: Option<seq<byte>>)
    ensures r == RawMap(ps)
  {
    var i := 1;
    while i < |ps|
      invariant 1 <= i && (i <= |ps| || |ps| == 0)
      invariant forall j :: 1 <= j < i && j < |ps| ==> ps[j - 1].key.n < ps[j].key.n
    {
      if ps[i].key.n <= ps[i - 1].key.n {
        return None; // keys must be strictly ascending
      }
      i := i + 1;
    }
    var out := [];
    i := 0;
    ghost var rest := ps;
    if RawPairs(ps).Some? {
      NothingAfter(RawPairs(ps).value);
    }
    while i < |ps|
      invariant 0 <= i <= |ps| && rest == ps[i..]
      invariant RawPairs(ps) == Append(Some(out), RawPairs(rest))
    {
      assert rest[0] == ps[i] && rest[1..] == ps[i + 1..];
      var k := Head(0, ps[i].key);
      if k.None? {
        return None;
      }
      if RawPairs(rest[1..]).Some? {
        Rebracket(out, k.value + ps[i].enc, RawPairs(rest[1..]).value);
      }
      out := out + (k.value + ps[i].enc);
      rest := rest[1..];
      i := i + 1;
    }
    NothingAfter(out);
    r := Append(Head(5, Num(|ps|)), Some(out));
  }

  function Prepend(vs: seq<Value>, r: Option<Items>): Option<Items> {
    match r
    case None => None
    case Some(items) => Some(Items(vs + items.vs, items.end))
  }

  lemma PrependPrepend(a: seq<Value>, b: seq<Value>, r: Option<Items>)
    ensures Prepend(a, Prepend(b, r)) == Prepend(a + b, r) && Prepend([], r) == r
  {
    if r.Some? {
      Rebracket(a, b, r.value.vs);
      NothingAfter(r.value.vs);
    }
  }

  method CbDecode(buf: seq<byte>, pos: nat) returns (r: Option<Item>)
    ensures r == Decoded(buf, pos)
    decreases |buf| - pos, 0
  {
    if pos >= |buf| {
      return None;
    }
    var ai := buf[pos] % 32;
    if buf[pos] / 32 == 7 {
      if ai == 20 {
        return Some(Item(Bool(false), pos + 1));
      }
      if ai == 21 {
        return Some(Item(Bool(true), pos + 1));
      }
      if ai == 22 {
        return Some(Item(Null, pos + 1));
      }
      if ai == 26 && pos + 5 <= |buf| {
        return Some(Item(F32(buf[pos + 1], buf[pos + 2], buf[pos + 3], buf[pos + 4]), pos + 5));
      }
      return None; // outside the profile
    }
    var head := ReadHead(buf, pos);
    if head.None? {
      return None;
    }
    var major, val, p := head.value.major, head.value.arg, head.value.end;
    if major == 0 {
      return Some(Item(UInt(Canonical(val)), p));
    }
    if major == 1 {
      return Some(Item(NInt(Canonical(val)), p));
    }
    if val > MAX_U32 || major == 6 {
      return None; // a length no frame fits, or a tag
    }
    if major == 2 || major == 3 {
      if p + val > |buf| {
        return None;
      }
      var s := buf[p..p + val];
      return Some(Item(if major == 2 then Bytes(s) else Text(s), p + val));
    }
    if major == 4 {
      var items := DecodeItems(buf, p, val);
      return if items.None? then None else Some(Item(Arr(items.value.vs), items.value.end));
    }
    var pairs := DecodePairs(buf, p, val);
    r := if pairs.None? then None else Some(Item(Map(pairs.value.ps), pairs.value.end));
  }

  /** The array loop of the decoder. */
  method DecodeItems(buf: seq<byte>, pos: nat, n: nat) returns (r: Option<Items>)
    requires pos <= |buf|
    ensures r == DecodedAll(buf, pos, n)
    decreases |buf| - pos, 1
  {
    var arr: seq<Value>, p, i := [], pos, 0;
    PrependPrepend([], [], DecodedAll(buf, pos, n));
    while i < n
      invariant 0 <= i <= n && pos <= p <= |buf|
      invariant DecodedAll(buf, pos, n) == Prepend(arr, DecodedAll(buf, p, n - i))
    {
      var item := CbDecode(buf, p);
      if item.None? {
        return None;
      }
      PrependPrepend(arr, [item.value.v], DecodedAll(buf, item.value.end, n - i - 1));
      arr, p, i := arr + [item.value.v], item.value.end, i + 1;
    }
    NothingAfter(arr);
    r := Some(Items(arr, p));
  }

  /** The map loop of the decoder. */
  method DecodePairs(buf: seq<byte>, pos: nat, n: nat) returns (r: Option<Pairs>)
    requires pos <= |buf|
    ensures r == DecodedPairs(buf, pos, n, [])
    decreases |buf| - pos, 1
  {
    var m: seq<Pair>, p, i := [], pos, 0;
    while i < n
      invariant 0 <= i <= n && pos <= p <= |buf|
      invariant DecodedPairs(buf, pos, n, []) == DecodedPairs(buf, p, n - i, m)
    {
      var k := CbDecode(buf, p);
      if k.None? {
        return None;
      }
      var v := CbDecode(buf, k.value.end);
      if v.None? || (!k.value.v.UInt? && !k.value.v.NInt?) {
        return None;
      }
      m, p, i := MapSet(m, k.value.v, v.value.v), v.value.end, i + 1;
    }
    r := Some(Pairs(m, p));
  }

  // ---- the bytes on the wire ----------------------------------------------------------------------

  /** The argument that follows the first byte, high byte first. */
  function BigEndian(s: seq<byte>): nat
    decreases |s|
  {
    if s == [] then 0 else 256 * BigEndian(s[..|s| - 1]) + s[|s| - 1]
  }

  lemma {:induction false} ReadsBig(s: seq<byte>)
    ensures BigEndian(s) == ReadBE(s)
    decreases |s|
  {
    if s != [] {
      ReadsBig(s[..|s| - 1]);
    }
  }

  /** The first byte holds the major type and a small argument, or how many bytes of a large one follow. */
  lemma HeadLayout(major: nat, v: Arg)
    requires major < 8
    ensures var h := Head(major, v);
            && (h.Some? <==> v.n <= (if v.Num? then 9007199254740991 else 18446744073709551615))
            && (h.Some? ==>
                 && |h.value| == (if v.n < 24 then 1 else if v.n < 256 then 2 else if v.n < 65536 then 3 else if v.n < 4294967296 then 5 else 9)
                 && h.value[0] == 32 * major + (if v.n < 24 then v.n else if v.n < 256 then 24 else if v.n < 65536 then 25
                                                else if v.n < 4294967296 then 26 else 27)
                 && (v.n >= 24 ==> BigEndian(h.value[1..]) == v.n))
  {
    hide BE16, BE32, BE64;
    var h := Head(major, v);
    if h.Some? && v.n >= 24 {
      ReadsBig(h.value[1..]);
      if v.n <= 0xff {
        ReadBE1(h.value[1..]);
      } else if v.n <= 0xffff {
        assert h.value[1..] == BE16(v.n);
        BE16Read(v.n);
      } else if v.n <= MAX_U32 {
        assert h.value[1..] == BE32(v.n);
        BE32Read(v.n);
      } else {
        assert h.value[1..] == BE64(v.n);
        BE64Read(v.n);
      }
    }
  }

  /** Every value begins with the byte of its major type (RFC 8949 section 3.1), and strings end in their bytes. */
  lemma ValueLayout(v: Value)
    requires Encoded(v).Some?
    ensures var s := Encoded(v).value;
            && s != []
            && s[0] / 32 == (match v case UInt(_) => 0 case NInt(_) => 1 case Bytes(_) => 2 case Text(_) => 3
                             case Arr(_) => 4 case Map(_) => 5 case _ => 7)
            && (v.UInt? || v.NInt? ==> Head(s[0] / 32, v.a) == Some(s))
            && (v.Bytes? || v.Text? ==> |v.b| <= |s| && s[|s| - |v.b|..] == v.b && Head(s[0] / 32, Num(|v.b|)) == Some(s[..|s| - |v.b|]))
            && (v.Bool? ==> s == [if v.on then 0xf5 else 0xf4]) && (v.Null? ==> s == [0xf6])
            && (v.F32? ==> s == [0xfa, v.b0, v.b1, v.b2, v.b3])
  {
    hide BE16, BE32, BE64, EncodedAll, EncodedPairs;
  }
}
