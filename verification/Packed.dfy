/**
 * Packed snapshots: the layout decoder and the sample encoder (clients/js/catalog.js), and the
 * one-field writer of the in-page hub (clients/js/localhub.js). Scaling is exact arithmetic;
 * a float is its four raw bytes and a string its UTF-8 bytes.
 */
module Packed {
  import opened Bytes

  // Packed types, in registry order.
  const U8 := 0
  const I8 := 1
  const U16T := 2
  const I16 := 3
  const U32T := 4
  const I32 := 5
  const F32T := 6
  const BITFIELD8 := 7
  const STR16 := 8
  const STR32 := 9
  const STR64 := 10

  datatype Quad = Quad(b0: byte, b1: byte, b2: byte, b3: byte)

  /** A physical value. Decoding never gives a Flag; writers may pass one. */
  datatype Val = Num(r: real) | Flag(on: bool) | Text(b: seq<byte>) | Single(q: Quad)

  datatype Field = Field(name: string, kind: nat, scale: real, declaredSize: Option<nat>)

  predicate Known(kind: nat) {
    kind <= STR64
  }

  predicate IsInt(kind: nat) {
    kind <= I32
  }

  predicate IsStr(kind: nat) {
    STR16 <= kind <= STR64
  }

  /** PACKED_SIZE. */
  function TypeSize(kind: nat): (n: nat)
    requires Known(kind)
    ensures n > 0
  {
    if kind <= I8 || kind == BITFIELD8 then 1
    else if kind <= I16 then 2
    else if kind <= F32T then 4
    else if kind == STR16 then 16
    else if kind == STR32 then 32
    else 64
  }

  /** `f.scale || 1`. */
  function Scale(f: Field): (s: real)
    ensures s != 0.0
  {
    if f.scale == 0.0 then 1.0 else f.scale
  }

  // ---- integers on the wire -----------------------------------------------------------

  predicate HasRange(kind: nat) {
    IsInt(kind) || kind == BITFIELD8
  }

  predicate Signed(kind: nat) {
    kind == I8 || kind == I16 || kind == I32
  }

  /** How many values the type has. */
  function Span(kind: nat): (n: nat)
    requires HasRange(kind)
    ensures n == 0x100 || n == 0x1_0000 || n == 0x1_0000_0000
  {
    match TypeSize(kind)
    case 1 => 0x100
    case 2 => 0x1_0000
    case _ => 0x1_0000_0000
  }

  function Lowest(kind: nat): int
    requires HasRange(kind)
  {
    if Signed(kind) then -(Span(kind) / 2) else 0
  }

  function Highest(kind: nat): int
    requires HasRange(kind)
  {
    Lowest(kind) + Span(kind) - 1
  }

  /** Two's complement, little-endian. */
  function RawBytes(kind: nat, n: int): (s: seq<byte>)
    requires HasRange(kind) && Lowest(kind) <= n <= Highest(kind)
    ensures |s| == TypeSize(kind)
  {
    var u := if n < 0 then n + Span(kind) else n;
    match TypeSize(kind)
    case 1 => [u]
    case 2 => LE16(u)
    case _ => LE32(u)
  }

  function Unsigned(kind: nat, s: seq<byte>): (u: nat)
    requires HasRange(kind) && |s| == TypeSize(kind)
    ensures u < Span(kind)
  {
    match TypeSize(kind)
    case 1 => s[0]
    case 2 => U16(s)
    case _ => U32(s)
  }

  function RawInt(kind: nat, s: seq<byte>): (n: int)
    requires HasRange(kind) && |s| == TypeSize(kind)
    ensures Lowest(kind) <= n <= Highest(kind)
  {
    var u := Unsigned(kind, s);
    if Signed(kind) && u > Highest(kind) then u - Span(kind) else u
  }

  lemma RawIntOfBytes(kind: nat, n: int)
    requires HasRange(kind) && Lowest(kind) <= n <= Highest(kind)
    ensures RawInt(kind, RawBytes(kind, n)) == n
  {
    var u := if n < 0 then n + Span(kind) else n;
    match TypeSize(kind)
    case 1 =>
    case 2 => LE16RoundTrip(u);
    case _ => LE32RoundTrip(u);
  }

  lemma RawBytesOfInt(kind: nat, s: seq<byte>)
    requires HasRange(kind) && |s| == TypeSize(kind)
    ensures RawBytes(kind, RawInt(kind, s)) == s
  {
    match TypeSize(kind)
    case 1 =>
    case 2 => U16RoundTrip(s);
    case _ => U32RoundTrip(s);
  }

  // ---- rounding ------------------------------------------------------------------------

  /** Math.round: half up. */
  function RoundUp(x: real): int {
    (x + 0.5).Floor
  }

  /** Half away from zero. */
  function RoundAway(x: real): int {
    if x >= 0.0 then RoundUp(x) else -RoundUp(-x)
  }

  lemma RoundInt(n: int)
    ensures RoundUp(n as real) == n && RoundAway(n as real) == n
  {
    assert (n as real + 0.5).Floor == n;
    assert ((-n) as real + 0.5).Floor == -n;
  }

  lemma RoundNear(x: real)
    ensures -0.5 <= RoundAway(x) as real - x <= 0.5
    ensures -0.5 <= RoundUp(x) as real - x <= 0.5
  {
  }

  /** `raw / scale`. */
  function Physical(f: Field, raw: int): real {
    raw as real / Scale(f)
  }

  /** `v * scale`. */
  function Scaled(f: Field, v: real): real {
    v * Scale(f)
  }

  lemma Unscale(n: real, s: real)
    requires s != 0.0
    ensures n / s * s == n
  {
  }

  lemma ScaledPhysical(f: Field, raw: int)
    ensures Scaled(f, Physical(f, raw)) == raw as real
  {
    Unscale(raw as real, Scale(f));
  }

  // ---- decoding --------------------------------------------------------------------------

  /** A fixed-width string, register-map style: without its trailing zeros. */
  function Trimmed(s: seq<byte>): (t: seq<byte>)
    ensures t <= s && (t == [] || t[|t| - 1] != 0)
    ensures forall i :: |t| <= i < |s| ==> s[i] == 0
  {
    if s == [] || s[|s| - 1] != 0 then s else Trimmed(s[..|s| - 1])
  }

  /** The value of one field from exactly its bytes. */
  function FieldValue(f: Field, s: seq<byte>): Val
    requires Known(f.kind) && |s| == TypeSize(f.kind)
  {
    if IsStr(f.kind) then Text(Trimmed(s))
    else if f.kind == F32T then Single(Quad(s[0], s[1], s[2], s[3]))
    else if f.kind == BITFIELD8 then Num(s[0] as real)
    else Num(Physical(f, RawInt(f.kind, s)))
  }

  /** The width the decoder steps over; None where it must stop. */
  function Width(f: Field): Option<nat> {
    if Known(f.kind) then Some(TypeSize(f.kind)) else f.declaredSize
  }

  /** A field and the bytes it was cut from the payload; only known types give one. */
  datatype Piece = Piece(f: Field, s: seq<byte>)

  predicate Readable(p: Piece) {
    Known(p.f.kind) && |p.s| == TypeSize(p.f.kind)
  }

  /** Where a field of this width ends, if it ends within the payload. */
  function Step(width: Option<nat>, off: nat, n: nat): Option<nat> {
    if width.Some? && off + width.value <= n then Some(off + width.value) else None
  }

  /**
   * How a payload is cut from `off` on, for any way to tell a field's width and whether its type
   * is known: an unknown type with a size is a hole, one without ends the walk.
   */
  function Cut(width: Field -> Option<nat>, known: Field -> bool, payload: seq<byte>, off: nat, layout: seq<Field>): seq<Piece>
    decreases |layout|
  {
    if layout == [] then []
    else
      var f := layout[0];
      match Step(width(f), off, |payload|)
      case None => []
      case Some(end) =>
        (if known(f) && off <= end then [Piece(f, payload[off..end])] else []) + Cut(width, known, payload, end, layout[1..])
  }

  function IsKnown(f: Field): bool {
    Known(f.kind)
  }

  function CutPacked(payload: seq<byte>, layout: seq<Field>): seq<Piece> {
    Cut(Width, IsKnown, payload, 0, layout)
  }

  lemma {:induction false} CutReadable(payload: seq<byte>, off: nat, layout: seq<Field>)
    ensures forall p :: p in Cut(Width, IsKnown, payload, off, layout) ==> Readable(p)
    decreases |layout|
  {
    if layout != [] {
      var end := Step(Width(layout[0]), off, |payload|);
      if end.Some? {
        CutReadable(payload, end.value, layout[1..]);
      }
    }
  }

  datatype Named<T> = Named(name: string, val: T)

  /** An object built by assigning properties in order. */
  function Object<T>(ps: seq<Named<T>>): map<string, T> {
    if ps == [] then map[] else map[ps[0].name := ps[0].val] + Object(ps[1..])
  }

  function Read(p: Piece): Named<Val>
    requires Readable(p)
  {
    Named(p.f.name, FieldValue(p.f, p.s))
  }

  function ReadAll(ps: seq<Piece>): (r: seq<Named<Val>>)
    requires forall p :: p in ps ==> Readable(p)
    ensures |r| == |ps| && forall i :: 0 <= i < |ps| ==> r[i] == Read(ps[i])
  {
    seq(|ps|, i requires 0 <= i < |ps| => Read(ps[i]))
  }

  function Decoded(payload: seq<byte>, layout: seq<Field>): map<string, Val> {
    CutReadable(payload, 0, layout);
    Object(ReadAll(CutPacked(payload, layout)))
  }

  /** How many fields from `off` on lie within `n` bytes and before an unknown type without a size. */
  function Fit(width: Field -> Option<nat>, layout: seq<Field>, off: nat, n: nat): (k: nat)
    ensures k <= |layout|
    decreases |layout|
  {
    if layout == [] then 0
    else
      match Step(width(layout[0]), off, n)
      case None => 0
      case Some(end) => 1 + Fit(width, layout[1..], end, n)
  }

  predicate DistinctNames(layout: seq<Field>) {
    forall i, j :: 0 <= i < j < |layout| ==> layout[i].name != layout[j].name
  }

  function FieldNames(layout: seq<Field>): set<string> {
    set f | f in layout :: f.name
  }

  ghost function NamesOf<T>(ps: seq<Named<T>>): set<string> {
    set p | p in ps :: p.name
  }

  function Restricted<T>(m: map<string, T>, names: set<string>): map<string, T> {
    map x | x in m && x in names :: m[x]
  }

  lemma {:induction false} ObjectKeys<T>(ps: seq<Named<T>>)
    ensures Object(ps).Keys == NamesOf(ps)
  {
    if ps != [] {
      ObjectKeys(ps[1..]);
      assert ps == [ps[0]] + ps[1..];
    }
  }

  lemma MergeMerge<T>(a: map<string, T>, b: map<string, T>, c: map<string, T>)
    ensures a + (b + c) == a + b + c
  {
  }

  lemma {:induction false} ObjectConcat<T>(a: seq<Named<T>>, b: seq<Named<T>>)
    ensures Object(a + b) == Object(a) + Object(b)
  {
    if a == [] {
      NothingAfter(b);
      assert Object(b) == map[] + Object(b);
    } else {
      assert (a + b)[0] == a[0] && (a + b)[1..] == a[1..] + b;
      ObjectConcat(a[1..], b);
      MergeMerge(map[a[0].name := a[0].val], Object(a[1..]), Object(b));
    }
  }

  /** Leaving out a part that only sets one name, set nowhere else, takes that name out. */
  lemma ObjectWithout<T>(a: seq<Named<T>>, m: seq<Named<T>>, c: seq<Named<T>>, name: string)
    requires name !in NamesOf(a) && name !in NamesOf(c) && NamesOf(m) <= {name}
    ensures Object(a + c) == Object(a + m + c) - {name}
  {
    ObjectConcat(a + m, c);
    ObjectConcat(a, m);
    ObjectConcat(a, c);
    ObjectKeys(a);
    ObjectKeys(m);
    ObjectKeys(c);
  }

  /** When the later names stay out of `names`, the object of the first part is the whole one, restricted. */
  lemma ObjectOfPrefix<T>(a: seq<Named<T>>, b: seq<Named<T>>, names: set<string>)
    requires NamesOf(a) <= names && NamesOf(b) !! names
    ensures Object(a) == Restricted(Object(a + b), names)
  {
    ObjectConcat(a, b);
    ObjectKeys(a);
    ObjectKeys(b);
  }

  lemma ReadConcat(a: seq<Piece>, b: seq<Piece>)
    requires forall p :: p in a + b ==> Readable(p)
    ensures forall p :: p in a || p in b ==> Readable(p)
    ensures ReadAll(a + b) == ReadAll(a) + ReadAll(b)
  {
    assert forall p :: p in a || p in b ==> p in a + b;
  }

  lemma ReadNames(ps: seq<Piece>, x: string)
    requires forall p :: p in ps ==> Readable(p)
    ensures x in NamesOf(ReadAll(ps)) <==> exists p :: p in ps && p.f.name == x
  {
    var r := ReadAll(ps);
    if x in NamesOf(r) {
      var i :| 0 <= i < |r| && r[i].name == x;
      assert ps[i] in ps;
    }
    if exists p :: p in ps && p.f.name == x {
      var p :| p in ps && p.f.name == x;
      var i :| 0 <= i < |ps| && ps[i] == p;
      assert r[i] in r;
    }
  }

  /** A shorter payload is cut into exactly the pieces of the fields that fit in it. */
  lemma {:induction false} CutShorter(width: Field -> Option<nat>, known: Field -> bool, payload: seq<byte>, n: nat, off: nat, layout: seq<Field>)
    requires n <= |payload|
    ensures Cut(width, known, payload[..n], off, layout)
         == Cut(width, known, payload, off, layout[..Fit(width, layout, off, n)])
    decreases |layout|
  {
    if layout != [] && Step(width(layout[0]), off, n).Some? {
      var end, rest := Step(width(layout[0]), off, n).value, layout[1..];
      var k := Fit(width, rest, end, n);
      CutShorter(width, known, payload, n, end, rest);
      assert layout[..k + 1][0] == layout[0] && layout[..k + 1][1..] == rest[..k];
      assert payload[..n][off..end] == payload[off..end];
    }
  }

  /** What is cut past the first `k` fields. */
  function CutAfter(width: Field -> Option<nat>, known: Field -> bool, payload: seq<byte>, off: nat, layout: seq<Field>, k: nat): seq<Piece>
    requires k <= |layout|
    decreases |layout|
  {
    if k == 0 then Cut(width, known, payload, off, layout)
    else
      match Step(width(layout[0]), off, |payload|)
      case None => []
      case Some(end) => CutAfter(width, known, payload, end, layout[1..], k - 1)
  }

  lemma {:induction false} CutSplit(width: Field -> Option<nat>, known: Field -> bool, payload: seq<byte>, off: nat, layout: seq<Field>, k: nat)
    requires k <= |layout|
    ensures Cut(width, known, payload, off, layout)
         == Cut(width, known, payload, off, layout[..k]) + CutAfter(width, known, payload, off, layout, k)
    decreases |layout|
  {
    if k > 0 {
      assert layout[..k][0] == layout[0];
      var end := Step(width(layout[0]), off, |payload|);
      if end.Some? {
        var rest := layout[1..];
        assert layout[..k][1..] == rest[..k - 1];
        CutSplit(width, known, payload, end.value, rest, k - 1);
        Rebracket(if known(layout[0]) then [Piece(layout[0], payload[off..end.value])] else [],
                  Cut(width, known, payload, end.value, rest[..k - 1]),
                  CutAfter(width, known, payload, end.value, rest, k - 1));
      }
    }
  }

  lemma {:induction false} CutFields(width: Field -> Option<nat>, known: Field -> bool, payload: seq<byte>, off: nat, layout: seq<Field>)
    ensures forall p :: p in Cut(width, known, payload, off, layout) ==> p.f in layout
    decreases |layout|
  {
    if layout != [] {
      var end := Step(width(layout[0]), off, |payload|);
      if end.Some? {
        CutFields(width, known, payload, end.value, layout[1..]);
      }
    }
  }

  lemma {:induction false} CutAfterFields(width: Field -> Option<nat>, known: Field -> bool, payload: seq<byte>, off: nat, layout: seq<Field>, k: nat)
    requires k <= |layout|
    ensures forall p :: p in CutAfter(width, known, payload, off, layout, k) ==> p.f in layout[k..]
    decreases |layout|
  {
    if k == 0 {
      CutFields(width, known, payload, off, layout);
      assert layout[0..] == layout;
    } else {
      var end := Step(width(layout[0]), off, |payload|);
      if end.Some? {
        CutAfterFields(width, known, payload, end.value, layout[1..], k - 1);
        assert layout[1..][k - 1..] == layout[k..];
      }
    }
  }

  /** Decoding with a shorter layout is the full decode restricted to that layout's fields. */
  lemma ShorterLayout(payload: seq<byte>, layout: seq<Field>, k: nat)
    requires k <= |layout| && DistinctNames(layout)
    ensures Decoded(payload, layout[..k]) == Restricted(Decoded(payload, layout), FieldNames(layout[..k]))
  {
    CutReadable(payload, 0, layout);
    CutSplit(Width, IsKnown, payload, 0, layout, k);
    CutFields(Width, IsKnown, payload, 0, layout[..k]);
    CutAfterFields(Width, IsKnown, payload, 0, layout, k);
    PiecesRestrict(CutPacked(payload, layout[..k]), CutAfter(Width, IsKnown, payload, 0, layout, k), layout, k);
  }

  lemma PiecesRestrict(a: seq<Piece>, b: seq<Piece>, layout: seq<Field>, k: nat)
    requires k <= |layout| && DistinctNames(layout)
    requires forall p :: p in a + b ==> Readable(p)
    requires (forall p :: p in a ==> p.f in layout[..k]) && (forall p :: p in b ==> p.f in layout[k..])
    ensures forall p :: p in a ==> Readable(p)
    ensures Object(ReadAll(a)) == Restricted(Object(ReadAll(a + b)), FieldNames(layout[..k]))
  {
    ReadConcat(a, b);
    forall x | x in NamesOf(ReadAll(a))
      ensures x in FieldNames(layout[..k])
    {
      ReadNames(a, x);
    }
    forall x | x in NamesOf(ReadAll(b))
      ensures x !in FieldNames(layout[..k])
    {
      ReadNames(b, x);
      NameOnce(layout, k, x);
    }
    ObjectOfPrefix(ReadAll(a), ReadAll(b), FieldNames(layout[..k]));
  }

  lemma NameOnce(layout: seq<Field>, k: nat, x: string)
    requires k <= |layout| && DistinctNames(layout) && x in FieldNames(layout[k..])
    ensures x !in FieldNames(layout[..k])
  {
    var j :| k <= j < |layout| && layout[j].name == x;
    assert forall i :: 0 <= i < k ==> layout[i].name != layout[j].name;
  }

  /** Append-only evolution: the newer layout reads an older, shorter snapshot as a restriction. */
  lemma OlderSnapshot(payload: seq<byte>, n: nat, layout: seq<Field>)
    requires n <= |payload| && DistinctNames(layout)
    ensures Decoded(payload[..n], layout)
         == Restricted(Decoded(payload, layout), FieldNames(layout[..Fit(Width, layout, 0, n)]))
  {
    CutShorter(Width, IsKnown, payload, n, 0, layout);
    ShorterLayout(payload, layout, Fit(Width, layout, 0, n));
  }

  /** A longer payload than the layout describes is ignored past the end. */
  lemma LongerPayload(payload: seq<byte>, extra: seq<byte>, layout: seq<Field>)
    requires Fit(Width, layout, 0, |payload|) == |layout|
    ensures Decoded(payload + extra, layout) == Decoded(payload, layout)
  {
    assert (payload + extra)[..|payload|] == payload;
    CutShorter(Width, IsKnown, payload + extra, |payload|, 0, layout);
    assert layout[..|layout|] == layout;
  }

  /** Replacing a field by an unknown type of the same width takes out that field's piece alone. */
  lemma {:induction false} CutWithHole(width: Field -> Option<nat>, known: Field -> bool, payload: seq<byte>, off: nat, layout: seq<Field>, i: nat, g: Field)
    requires i < |layout| && !known(g) && width(g) == width(layout[i])
    ensures Cut(width, known, payload, off, layout[i := g])
         == Cut(width, known, payload, off, layout[..i]) + CutAfter(width, known, payload, off, layout, i + 1)
    decreases |layout|
  {
    var f, rest := layout[0], layout[1..];
    if i == 0 {
      assert layout[0 := g][0] == g && layout[0 := g][1..] == rest;
      NothingAfter(CutAfter(width, known, payload, off, layout, 1));
    } else {
      assert layout[i := g][0] == f && layout[i := g][1..] == rest[i - 1 := g];
      assert layout[..i][0] == f && layout[..i][1..] == rest[..i - 1] && rest[i - 1] == layout[i];
      var end := Step(width(f), off, |payload|);
      if end.Some? {
        CutWithHole(width, known, payload, end.value, rest, i - 1, g);
        Rebracket(if known(f) then [Piece(f, payload[off..end.value])] else [],
                  Cut(width, known, payload, end.value, rest[..i - 1]),
                  CutAfter(width, known, payload, end.value, rest, i));
      }
    }
  }

  lemma {:induction false} CutAfterOne(width: Field -> Option<nat>, known: Field -> bool, payload: seq<byte>, off: nat, layout: seq<Field>, i: nat)
    returns (mid: seq<Piece>)
    requires i < |layout|
    ensures CutAfter(width, known, payload, off, layout, i) == mid + CutAfter(width, known, payload, off, layout, i + 1)
    ensures forall p :: p in mid ==> p.f == layout[i]
    decreases |layout|
  {
    var end := Step(width(layout[0]), off, |payload|);
    if end.None? {
      mid := [];
    } else if i == 0 {
      mid := if known(layout[0]) then [Piece(layout[0], payload[off..end.value])] else [];
      assert CutAfter(width, known, payload, off, layout, 1) == CutAfter(width, known, payload, end.value, layout[1..], 0);
    } else {
      mid := CutAfterOne(width, known, payload, end.value, layout[1..], i - 1);
    }
  }

  /** A field of an unknown type with the width of the field it replaces hides that field alone. */
  lemma UnknownWithSize(payload: seq<byte>, layout: seq<Field>, i: nat, g: Field)
    requires i < |layout| && DistinctNames(layout)
    requires !Known(g.kind) && Width(g) == Width(layout[i])
    ensures Decoded(payload, layout[i := g]) == Decoded(payload, layout) - {layout[i].name}
  {
    var a, c := CutPacked(payload, layout[..i]), CutAfter(Width, IsKnown, payload, 0, layout, i + 1);
    CutWithHole(Width, IsKnown, payload, 0, layout, i, g);
    CutSplit(Width, IsKnown, payload, 0, layout, i);
    var mid := CutAfterOne(Width, IsKnown, payload, 0, layout, i);
    Rebracket(a, mid, c);
    CutReadable(payload, 0, layout);
    CutFields(Width, IsKnown, payload, 0, layout[..i]);
    CutAfterFields(Width, IsKnown, payload, 0, layout, i + 1);
    TakenOut(a, mid, c, layout, i);
  }

  lemma TakenOut(a: seq<Piece>, mid: seq<Piece>, c: seq<Piece>, layout: seq<Field>, i: nat)
    requires i < |layout| && DistinctNames(layout)
    requires forall p :: p in a + mid + c ==> Readable(p)
    requires (forall p :: p in a ==> p.f in layout[..i]) && (forall p :: p in c ==> p.f in layout[i + 1..])
    requires forall p :: p in mid ==> p.f == layout[i]
    ensures forall p :: p in a + c ==> Readable(p)
    ensures Object(ReadAll(a + c)) == Object(ReadAll(a + mid + c)) - {layout[i].name}
  {
    ReadConcat(a + mid, c);
    ReadConcat(a, mid);
    assert forall p :: p in a + c ==> p in a || p in c;
    ReadConcat(a, c);
    var name := layout[i].name;
    ReadNames(a, name);
    ReadNames(c, name);
    forall x | x in NamesOf(ReadAll(mid))
      ensures x == name
    {
      ReadNames(mid, x);
    }
    OthersDiffer(layout, i);
    ObjectWithout(ReadAll(a), ReadAll(mid), ReadAll(c), name);
  }

  lemma OthersDiffer(layout: seq<Field>, i: nat)
    requires i < |layout| && DistinctNames(layout)
    ensures forall f :: f in layout[..i] ==> f.name != layout[i].name
    ensures forall f :: f in layout[i + 1..] ==> f.name != layout[i].name
  {
  }

  lemma {:induction false} CutStops(width: Field -> Option<nat>, known: Field -> bool, payload: seq<byte>, off: nat, layout: seq<Field>, i: nat, g: Field)
    requires i < |layout| && width(g).None?
    ensures Cut(width, known, payload, off, layout[i := g]) == Cut(width, known, payload, off, layout[..i])
    decreases |layout|
  {
    if i == 0 {
      assert layout[0 := g][0] == g;
    } else {
      var f, rest := layout[0], layout[1..];
      assert layout[i := g][0] == f && layout[i := g][1..] == rest[i - 1 := g];
      assert layout[..i][0] == f && layout[..i][1..] == rest[..i - 1];
      var end := Step(width(f), off, |payload|);
      if end.Some? {
        CutStops(width, known, payload, end.value, rest, i - 1, g);
      }
    }
  }

  /** An unknown type without a size ends the decode there: no later offset is guessed. */
  lemma UnknownWithoutSize(payload: seq<byte>, layout: seq<Field>, i: nat, g: Field)
    requires i < |layout| && !Known(g.kind) && g.declaredSize.None?
    ensures Decoded(payload, layout[i := g]) == Decoded(payload, layout[..i])
  {
    CutStops(Width, IsKnown, payload, 0, layout, i, g);
  }

  // ---- reading one field ---------------------------------------------------------------------

  predicate DistinctNamed<T>(ps: seq<Named<T>>) {
    forall i, j :: 0 <= i < j < |ps| ==> ps[i].name != ps[j].name
  }

  lemma {:induction false} ObjectLookup<T>(ps: seq<Named<T>>, i: nat)
    requires i < |ps| && DistinctNamed(ps)
    ensures ps[i].name in Object(ps) && Object(ps)[ps[i].name] == ps[i].val
    decreases ps
  {
    if i == 0 {
      ObjectKeys(ps[1..]);
    } else {
      assert forall k :: 0 <= k < |ps| - 1 ==> ps[1..][k] == ps[k + 1];
      ObjectLookup(ps[1..], i - 1);
    }
  }

  /** Every field has a known type and lies within the payload. */
  predicate Covers(payload: seq<byte>, off: nat, layout: seq<Field>)
    decreases |layout|
  {
    layout == [] || (Known(layout[0].kind) && off + TypeSize(layout[0].kind) <= |payload|
                     && Covers(payload, off + TypeSize(layout[0].kind), layout[1..]))
  }

  /** The values of a covered layout, field by field. */
  function ValuesFrom(payload: seq<byte>, off: nat, layout: seq<Field>): (r: seq<Val>)
    requires Covers(payload, off, layout)
    ensures |r| == |layout|
    decreases |layout|
  {
    if layout == [] then []
    else
      var end := off + TypeSize(layout[0].kind);
      [FieldValue(layout[0], payload[off..end])] + ValuesFrom(payload, end, layout[1..])
  }

  function Values(payload: seq<byte>, layout: seq<Field>): (r: seq<Val>)
    requires Covers(payload, 0, layout)
    ensures |r| == |layout|
  {
    ValuesFrom(payload, 0, layout)
  }

  lemma {:induction false} CutCovered(payload: seq<byte>, off: nat, layout: seq<Field>)
    requires Covers(payload, off, layout)
    ensures var ps := Cut(Width, IsKnown, payload, off, layout);
            |ps| == |layout|
            && (forall p :: p in ps ==> Readable(p))
            && forall i :: 0 <= i < |ps| ==> ps[i].f == layout[i] && Read(ps[i]).val == ValuesFrom(payload, off, layout)[i]
    decreases |layout|
  {
    if layout != [] {
      var end, rest := off + TypeSize(layout[0].kind), layout[1..];
      CutCovered(payload, end, rest);
      var ps, more := Cut(Width, IsKnown, payload, off, layout), Cut(Width, IsKnown, payload, end, rest);
      assert ps == [Piece(layout[0], payload[off..end])] + more;
      assert forall i :: 1 <= i < |ps| ==> ps[i] == more[i - 1] && layout[i] == rest[i - 1];
    }
  }

  /** Reading a field by name gives the value at its place in the layout. */
  lemma ReadByName(payload: seq<byte>, layout: seq<Field>, i: nat)
    requires i < |layout| && DistinctNames(layout) && Covers(payload, 0, layout)
    ensures layout[i].name in Decoded(payload, layout)
    ensures Decoded(payload, layout)[layout[i].name] == Values(payload, layout)[i]
  {
    CutCovered(payload, 0, layout);
    var ps := ReadAll(CutPacked(payload, layout));
    ObjectLookup(ps, i);
  }

  lemma SetLast<T>(ps: seq<Named<T>>, p: Named<T>)
    ensures Object(ps + [p]) == Object(ps)[p.name := p.val]
  {
    ObjectConcat(ps, [p]);
    assert [p][1..] == [];
  }

  /** One more piece of a known type. */
  lemma ReadMore(done: seq<Piece>, p: Piece)
    requires (forall q :: q in done ==> Readable(q)) && Readable(p)
    ensures forall q :: q in done + [p] ==> Readable(q)
    ensures Object(ReadAll(done + [p])) == Object(ReadAll(done))[p.f.name := FieldValue(p.f, p.s)]
  {
    ReadConcat(done, [p]);
    assert ReadAll([p]) == [Read(p)];
    SetLast(ReadAll(done), Read(p));
  }

  /** How the walk goes on from one field to the next, `done` being what is cut so far. */
  lemma CutStep(payload: seq<byte>, off: nat, layout: seq<Field>, done: seq<Piece>)
    requires layout != [] && off <= |payload|
    ensures var f := layout[0];
            var end := Step(Width(f), off, |payload|);
            (done + Cut(Width, IsKnown, payload, off, layout)
             == if end.None? then done
                else (if Known(f.kind) then done + [Piece(f, payload[off..end.value])] else done)
                     + Cut(Width, IsKnown, payload, end.value, layout[1..]))
  {
    var f := layout[0];
    var end := Step(Width(f), off, |payload|);
    if end.None? {
      NothingAfter(done);
    } else {
      var more := Cut(Width, IsKnown, payload, end.value, layout[1..]);
      if Known(f.kind) {
        Rebracket(done, [Piece(f, payload[off..end.value])], more);
      } else {
        NothingAfter(more);
      }
    }
  }

  /** The decoder's loop. */
  method DecodePacked(payload: seq<byte>, layout: seq<Field>) returns (out: map<string, Val>)
    ensures out == Decoded(payload, layout)
  {
    out := map[];
    CutReadable(payload, 0, layout);
    ghost var all: seq<Piece>, done: seq<Piece>, rest := CutPacked(payload, layout), [], layout;
    var off: nat, i := 0, 0;
    NothingAfter(all);
    while i < |layout|
      invariant 0 <= i <= |layout| && rest == layout[i..] && off <= |payload|
      invariant all == done + Cut(Width, IsKnown, payload, off, rest)
      invariant (forall p :: p in done ==> Readable(p)) && out == Object(ReadAll(done))
    {
      var f := layout[i];
      assert rest[0] == f && rest[1..] == layout[i + 1..];
      CutStep(payload, off, rest, done);
      rest := rest[1..];
      var next := Step(Width(f), off, |payload|);
      if next.None? {
        return; // offsets are unknowable past here, or the frame is short
      }
      var end := next.value;
      if Known(f.kind) { // an unknown type with a declared size is a hole
        ghost var p := Piece(f, payload[off..end]);
        ReadMore(done, p);
        out := out[f.name := FieldValue(f, payload[off..end])];
        done := done + [p];
      }
      off := end;
      i := i + 1;
    }
    NothingAfter(done);
  }
}
