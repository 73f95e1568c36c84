/**
 * Packed fields in the numbers of the registry: which bytes a field takes, and which number they are
 * (clients/js/catalog.js, clients/js/localhub.js).
 */
module PackedNumbers {
  import opened Bytes
  import opened Packed
  import opened PackedWrite

  // ---- where a field lies ---------------------------------------------------------------------

  /** Bytes of u8, i8, u16, i16, u32, i32, f32, bitfield8, str16, str32 and str64. */
  function Octets(kind: nat): (n: nat)
    requires kind <= STR64
  {
    [1, 1, 2, 2, 4, 4, 4, 1, 16, 32, 64][kind]
  }

  lemma WidthIs(kind: nat)
    ensures Known(kind) <==> kind <= STR64
    ensures Known(kind) ==> TypeSize(kind) == Octets(kind)
  {
  }

  /** Where field `i` of a layout of known types begins. */
  function Begins(layout: seq<Field>, i: nat): nat
    requires i <= |layout| && forall f :: f in layout ==> f.kind <= STR64
    decreases i
  {
    if i == 0 then 0 else Begins(layout, i - 1) + Octets(layout[i - 1].kind)
  }

  /** Every field has a known type, and the payload reaches to the end of the last. */
  predicate Full(payload: seq<byte>, layout: seq<Field>) {
    (forall f :: f in layout ==> f.kind <= STR64) && Begins(layout, |layout|) <= |payload|
  }

  lemma {:induction false} BeginsRest(layout: seq<Field>, i: nat)
    requires 0 < i <= |layout| && forall f :: f in layout ==> f.kind <= STR64
    ensures forall f :: f in layout[1..] ==> f.kind <= STR64
    ensures Begins(layout, i) == Octets(layout[0].kind) + Begins(layout[1..], i - 1)
  {
    if i > 1 {
      BeginsRest(layout, i - 1);
      assert layout[1..][i - 2] == layout[i - 1];
    }
  }

  lemma BeginsZero(layout: seq<Field>)
    requires forall f :: f in layout ==> f.kind <= STR64
    ensures Begins(layout, 0) == 0
  {
  }

  /** The value of a field is read from the bytes where it begins. */
  lemma {:induction false} ValueThere(payload: seq<byte>, off: nat, layout: seq<Field>, i: nat)
    requires i < |layout| && (forall f :: f in layout ==> f.kind <= STR64) && off + Begins(layout, |layout|) <= |payload|
    ensures Covers(payload, off, layout) && Known(layout[i].kind)
    ensures var at, end := off + Begins(layout, i), off + Begins(layout, i) + TypeSize(layout[i].kind);
            end <= |payload| && ValuesFrom(payload, off, layout)[i] == FieldValue(layout[i], payload[at..end])
    decreases |layout|
  {
    hide FieldValue, Begins, Octets, TypeSize;
    WidthIs(layout[0].kind);
    BeginsRest(layout, |layout|);
    BeginsZero(layout);
    var end, rest := off + TypeSize(layout[0].kind), layout[1..];
    if rest == [] {
      BeginsZero(rest);
    } else {
      ValueThere(payload, end, rest, if i > 0 then i - 1 else 0);
    }
    if i > 0 {
      BeginsRest(layout, i);
      assert rest[i - 1] == layout[i];
      ValueNext(payload, off, layout, i);
    } else {
      ValueFirst(payload, off, layout);
    }
  }

  lemma ValueNext(payload: seq<byte>, off: nat, layout: seq<Field>, i: nat)
    requires 0 < i < |layout| && Covers(payload, off, layout)
    ensures ValuesFrom(payload, off, layout)[i] == ValuesFrom(payload, off + TypeSize(layout[0].kind), layout[1..])[i - 1]
  {
    hide FieldValue, TypeSize;
  }

  lemma ValueFirst(payload: seq<byte>, off: nat, layout: seq<Field>)
    requires layout != [] && Covers(payload, off, layout)
    ensures ValuesFrom(payload, off, layout)[0] == FieldValue(layout[0], payload[off..off + TypeSize(layout[0].kind)])
  {
    hide FieldValue, TypeSize;
  }

  // ---- which number it is ---------------------------------------------------------------------

  /** The bytes from `at` on as an integer of this kind: little-endian, a signed one below zero by its top bit. */
  function Integer(kind: nat, s: seq<byte>, at: nat): int
    requires kind <= I32 && at + Octets(kind) <= |s|
  {
    var b0: int := s[at];
    if kind == U8 then b0
    else if kind == I8 then if b0 >= 128 then b0 - 256 else b0
    else
      var b1: int := s[at + 1];
      if kind == U16T then b0 + 256 * b1
      else if kind == I16 then b0 + 256 * b1 - (if b1 >= 128 then 65536 else 0)
      else
        var b2: int, b3: int := s[at + 2], s[at + 3];
        var n := b0 + 256 * b1 + 65536 * b2 + 16777216 * b3;
        if kind == I32 && b3 >= 128 then n - 4294967296 else n
  }

  lemma IntegerRaw(kind: nat, s: seq<byte>, at: nat)
    requires kind <= I32 && at + Octets(kind) <= |s|
    ensures TypeSize(kind) == Octets(kind) && RawInt(kind, s[at..at + Octets(kind)]) == Integer(kind, s, at)
  {
  }

  /** What a field shows for its bytes from `at` on, by its type and its scale, a scale of 0 standing for 1. */
  ghost predicate Shows(f: Field, s: seq<byte>, at: nat, v: Val)
    requires f.kind <= STR64 && at + Octets(f.kind) <= |s|
  {
    if f.kind <= I32 then v.Num? && v.r * (if f.scale == 0.0 then 1.0 else f.scale) == Integer(f.kind, s, at) as real
    else if f.kind == F32T then v == Single(Quad(s[at], s[at + 1], s[at + 2], s[at + 3]))
    else if f.kind == BITFIELD8 then v == Num(s[at] as real)
    else v.Text? && Unpadded(v.b, s[at..at + Octets(f.kind)])
  }

  /** `t` is `s` without its trailing zeros. */
  ghost predicate Unpadded(t: seq<byte>, s: seq<byte>) {
    t <= s && (forall i :: |t| <= i < |s| ==> s[i] == 0) && (t == [] || t[|t| - 1] != 0)
  }

  lemma IntShows(f: Field, s: seq<byte>, at: nat)
    requires f.kind <= I32 && at + Octets(f.kind) <= |s|
    ensures TypeSize(f.kind) == Octets(f.kind)
    ensures Shows(f, s, at, FieldValue(f, s[at..at + Octets(f.kind)]))
  {
    hide RawInt, Integer, Octets, TypeSize, Physical;
    IntegerRaw(f.kind, s, at);
    UnscaledPhysical(f, Integer(f.kind, s, at));
  }

  lemma ValueShows(f: Field, s: seq<byte>, at: nat)
    requires f.kind <= STR64 && at + Octets(f.kind) <= |s|
    ensures Known(f.kind) && TypeSize(f.kind) == Octets(f.kind)
    ensures Shows(f, s, at, FieldValue(f, s[at..at + Octets(f.kind)]))
  {
    hide RawInt, Integer, Physical;
    WidthIs(f.kind);
    if f.kind <= I32 {
      IntShows(f, s, at);
    }
  }

  /** Every field of a payload decodes to the number, float or text its bytes stand for. */
  lemma DecodedShows(payload: seq<byte>, layout: seq<Field>, i: nat)
    requires i < |layout| && DistinctNames(layout) && Full(payload, layout)
    ensures var f, at := layout[i], Begins(layout, i);
            && at + Octets(f.kind) <= |payload| && f.name in Decoded(payload, layout)
            && Shows(f, payload, at, Decoded(payload, layout)[f.name])
  {
    hide Shows, FieldValue, Decoded, Octets, TypeSize, Begins;
    ValueThere(payload, 0, layout, i);
    WidthIs(layout[i].kind);
    ReadByName(payload, layout, i);
    ValueShows(layout[i], payload, Begins(layout, i));
  }

  // ---- encoding --------------------------------------------------------------------------------

  function LowEnd(kind: nat): int
    requires kind <= I32
  {
    [0, -128, 0, -32768, 0, -2147483648][kind]
  }

  function HighEnd(kind: nat): int
    requires kind <= I32
  {
    [255, 127, 65535, 32767, 4294967295, 2147483647][kind]
  }

  lemma RangeIs(kind: nat)
    requires kind <= I32
    ensures Lowest(kind) == LowEnd(kind) && Highest(kind) == HighEnd(kind)
  {
  }

  /** `n` is the whole number nearest to `x`, of two the one away from zero. */
  predicate NearestAway(x: real, n: int) {
    && -0.5 <= n as real - x <= 0.5
    && (n as real - x == -0.5 ==> x < 0.0)
    && (n as real - x == 0.5 ==> x > 0.0)
  }

  /** `n` is the whole number nearest to `x`, of two the one above. */
  predicate NearestUp(x: real, n: int) {
    -0.5 < n as real - x <= 0.5
  }

  lemma NearestRounds(x: real, n: int)
    ensures NearestAway(x, n) <==> n == RoundAway(x)
    ensures NearestUp(x, n) <==> n == RoundUp(x)
  {
  }

  /** What a sample holds for a field, in its steps. */
  function Steps(f: Field, v: real): real {
    v * if f.scale == 0.0 then 1.0 else f.scale
  }

  /** A sample holds something the field can carry. */
  ghost predicate Carries(f: Field, values: map<string, real>) {
    && f.kind < STR16 && f.name in values
    && (f.kind <= I32 ==> exists n :: NearestAway(Steps(f, values[f.name]), n) && LowEnd(f.kind) <= n <= HighEnd(f.kind))
    && (f.kind == BITFIELD8 ==> exists n :: NearestAway(values[f.name], n) && 0 <= n <= 255)
  }

  lemma CarriesIs(f: Field, values: map<string, real>)
    ensures Carries(f, values) <==> Encodable(f, values)
  {
    if f.kind < STR16 && f.name in values {
      var x := if f.kind == BITFIELD8 then values[f.name] else Steps(f, values[f.name]);
      assert f.kind != BITFIELD8 ==> x == Scaled(f, values[f.name]);
      forall n
        ensures NearestAway(x, n) <==> n == RoundAway(x)
      {
        NearestRounds(x, n);
      }
      assert NearestAway(x, RoundAway(x));
      if f.kind <= I32 {
        RangeIs(f.kind);
      }
    }
  }

  /** The encoder refuses exactly the samples in which some field is missing, of no numeric type, or out of range. */
  lemma RefusesWhen(single: ToSingle, values: map<string, real>, layout: seq<Field>)
    ensures Encoded(single, values, layout).Some? <==> forall f :: f in layout ==> Carries(f, values)
  {
    hide Carries, Encodable;
    EncodedWhen(single, values, layout);
    forall f
      ensures Carries(f, values) <==> Encodable(f, values)
    {
      CarriesIs(f, values);
    }
  }

  lemma SliceOfTail(head: seq<byte>, tail: seq<byte>, at: nat, end: nat)
    requires at <= end <= |tail|
    ensures (head + tail)[|head| + at..|head| + end] == tail[at..end]
  {
  }

  lemma SliceOfHead(head: seq<byte>, tail: seq<byte>)
    ensures (head + tail)[0..|head|] == head
  {
  }

  /** The bytes a field is encoded to stand where it begins. */
  lemma {:induction false} EncodedThere(single: ToSingle, values: map<string, real>, layout: seq<Field>, i: nat)
    requires i < |layout| && Encoded(single, values, layout).Some?
    ensures (forall f :: f in layout ==> f.kind <= STR64) && Encodable(layout[i], values)
    ensures var s, at, end := Encoded(single, values, layout).value, Begins(layout, i), Begins(layout, i) + Octets(layout[i].kind);
            |s| == Begins(layout, |layout|) && end <= |s| && s[at..end] == SampleBytes(single, layout[i], values)
    decreases |layout|
  {
    hide SampleBytes, Octets, TypeSize, Encodable, Begins;
    var f, rest := layout[0], layout[1..];
    var head, tail := SampleBytes(single, f, values), Encoded(single, values, rest).value;
    assert layout == [f] + rest;
    KnownField(f, values);
    if rest != [] {
      EncodedThere(single, values, rest, if i > 0 then i - 1 else 0);
    } else {
      BeginsZero(rest);
    }
    BeginsRest(layout, |layout|);
    BeginsZero(layout);
    if i > 0 {
      BeginsRest(layout, i);
      assert rest[i - 1] == layout[i];
      SliceOfTail(head, tail, Begins(rest, i - 1), Begins(rest, i - 1) + Octets(layout[i].kind));
    } else {
      SliceOfHead(head, tail);
    }
  }

  lemma KnownField(f: Field, values: map<string, real>)
    requires Encodable(f, values)
    ensures f.kind <= STR64 && TypeSize(f.kind) == Octets(f.kind)
  {
    WidthIs(f.kind);
  }

  /**
   * A sample is encoded field by field where each begins: an integer as the whole number of steps nearest
   * to the value, halves away from zero, a float as the value in steps.
   */
  lemma EncodedShows(single: ToSingle, values: map<string, real>, layout: seq<Field>, i: nat)
    requires i < |layout| && Encoded(single, values, layout).Some?
    ensures (forall f :: f in layout ==> f.kind <= STR64) && Carries(layout[i], values)
    ensures var s, f, at := Encoded(single, values, layout).value, layout[i], Begins(layout, i);
            && |s| == Begins(layout, |layout|) && at + Octets(f.kind) <= |s|
            && (f.kind <= I32 ==> NearestAway(Steps(f, values[f.name]), Integer(f.kind, s, at)))
            && (f.kind == BITFIELD8 ==> NearestAway(values[f.name], s[at]))
            && (f.kind == F32T ==> Quad(s[at], s[at + 1], s[at + 2], s[at + 3]) == single(Steps(f, values[f.name])))
  {
    hide Encoded, Encodable, Integer;
    EncodedThere(single, values, layout, i);
    CarriesIs(layout[i], values);
    var s, f, at := Encoded(single, values, layout).value, layout[i], Begins(layout, i);
    var w := Octets(f.kind);
    SampleStands(single, f, values, s[at..at + w]);
    if f.kind <= I32 {
      IntegerRaw(f.kind, s, at);
    }
  }

  lemma SampleStands(single: ToSingle, f: Field, values: map<string, real>, b: seq<byte>)
    requires Encodable(f, values) && b == SampleBytes(single, f, values)
    ensures |b| == TypeSize(f.kind)
    ensures f.kind <= I32 ==> NearestAway(Steps(f, values[f.name]), RawInt(f.kind, b))
    ensures f.kind == BITFIELD8 ==> NearestAway(values[f.name], b[0])
    ensures f.kind == F32T ==> Quad(b[0], b[1], b[2], b[3]) == single(Steps(f, values[f.name]))
  {
    var v := values[f.name];
    assert Steps(f, v) == Scaled(f, v);
    if f.kind != F32T {
      NearestRounds(if f.kind == BITFIELD8 then v else Scaled(f, v), SampleRaw(f, v));
      RawIntOfBytes(f.kind, SampleRaw(f, v));
    }
  }

  // ---- writing one field -----------------------------------------------------------------------

  /** What is stored for a value written to a field, in the field's steps, cut to its range and to its bytes. */
  ghost predicate Keeps(single: ToSingle, f: Field, v: Val, stored: Val)
    requires f.kind <= STR64
  {
    var x := if v.Num? then v.r else if v == Flag(true) then 1.0 else 0.0;
    if f.kind <= I32 then
      stored.Num? && exists n: int ::
        && stored.r * (if f.scale == 0.0 then 1.0 else f.scale) == n as real && LowEnd(f.kind) <= n <= HighEnd(f.kind)
        && (NearestUp(Steps(f, x), n) || (n == LowEnd(f.kind) && Steps(f, x) < n as real)
            || (n == HighEnd(f.kind) && Steps(f, x) > n as real))
    else if f.kind == F32T then stored == Single(if v.Single? then v.q else single(Steps(f, x)))
    else if f.kind == BITFIELD8 then
      stored == Num(((if x >= 0.0 then x.Floor else -(-x).Floor) % 256) as real)
    else
      var b := if v.Text? then v.b else [];
      stored.Text? && Unpadded(stored.b, b[..if |b| < Octets(f.kind) then |b| else Octets(f.kind) - 1])
  }

  lemma IntKeeps(single: ToSingle, f: Field, v: Val)
    requires f.kind <= I32
    ensures Keeps(single, f, v, Stored(single, f, v))
  {
    hide RoundUp, Physical, Lowest, Highest, LowEnd, HighEnd, NearestUp, Steps, Scaled, Saturated;
    var x := Scaled(f, AsNumber(v));
    var n := Saturated(f.kind, RoundUp(x));
    StepsAre(f, v);
    NearestRounds(x, RoundUp(x));
    RangeIs(f.kind);
    Saturates(f.kind, x, n);
    UnscaledPhysical(f, n);
  }

  lemma UnscaledPhysical(f: Field, n: int)
    ensures Physical(f, n) * (if f.scale == 0.0 then 1.0 else f.scale) == n as real
  {
    ScaledPhysical(f, n);
  }

  lemma StepsAre(f: Field, v: Val)
    ensures Scaled(f, AsNumber(v)) == Steps(f, if v.Num? then v.r else if v == Flag(true) then 1.0 else 0.0)
  {
  }

  lemma Saturates(kind: nat, x: real, n: int)
    requires HasRange(kind) && n == Saturated(kind, RoundUp(x))
    ensures n == RoundUp(x) || (n == Lowest(kind) && x < n as real) || (n == Highest(kind) && x > n as real)
  {
    hide Lowest, Highest;
  }

  lemma StoredKeeps(single: ToSingle, f: Field, v: Val)
    requires f.kind <= STR64
    ensures Known(f.kind) && Keeps(single, f, v, Stored(single, f, v))
  {
    hide RoundUp, Physical, Saturated, Steps, Scaled;
    WidthIs(f.kind);
    StepsAre(f, v);
    if f.kind <= I32 {
      IntKeeps(single, f, v);
    }
  }

  /**
   * After one field of a snapshot is written, it decodes to the value in steps, halves up, cut to the range
   * of its type, or to the text cut to leave room for one zero; every other field decodes to what it did.
   */
  lemma WriteKeeps(single: ToSingle, snap: seq<byte>, layout: seq<Field>, i: nat, v: Val, j: nat)
    requires i < |layout| && j < |layout| && DistinctNames(layout) && Full(snap, layout)
    ensures var before, after := Decoded(snap, layout), Decoded(WriteField(single, snap, layout, i, v), layout);
            && layout[j].name in before && layout[j].name in after
            && if j == i then Keeps(single, layout[i], v, after[layout[i].name]) else after[layout[j].name] == before[layout[j].name]
  {
    hide Decoded, WriteField, Keeps, Stored;
    ValueThere(snap, 0, layout, i);
    WriteFieldStores(single, snap, layout, i, v);
    ReadByName(snap, layout, j);
    ReadByName(WriteField(single, snap, layout, i, v), layout, j);
    StoredKeeps(single, layout[i], v);
  }
}
