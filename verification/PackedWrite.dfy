/**
 * Writing packed values: whole samples as the publisher encodes them (clients/js/catalog.js), and
 * one field of a retained snapshot as the in-page hub writes it (clients/js/localhub.js).
 */
module PackedWrite {
  import opened Bytes
  import opened Packed

  /** How a real is stored as a binary32: left abstract, since its rounding is not modelled. */
  type ToSingle = real -> Quad

  function QuadBytes(q: Quad): seq<byte> {
    [q.b0, q.b1, q.b2, q.b3]
  }

  // ---- encodePacked -------------------------------------------------------------------------

  /** The scaled number an integer field would carry, rounded half away from zero. */
  function SampleRaw(f: Field, v: real): int {
    RoundAway(if f.kind == BITFIELD8 then v else Scaled(f, v))
  }

  /** A field this sample can carry: known, present, not a string, and in range once rounded. */
  predicate Encodable(f: Field, values: map<string, real>) {
    && Known(f.kind) && !IsStr(f.kind) && f.name in values
    && (f.kind != F32T ==> Lowest(f.kind) <= SampleRaw(f, values[f.name]) <= Highest(f.kind))
  }

  function SampleBytes(single: ToSingle, f: Field, values: map<string, real>): (s: seq<byte>)
    requires Encodable(f, values)
    ensures |s| == TypeSize(f.kind)
  {
    var v := values[f.name];
    if f.kind == F32T then QuadBytes(single(Scaled(f, v))) else RawBytes(f.kind, SampleRaw(f, v))
  }

  /** `encodePacked`; None where it throws. */
  function Encoded(single: ToSingle, values: map<string, real>, layout: seq<Field>): Option<seq<byte>>
    decreases |layout|
  {
    if layout == [] then Some([])
    else
      var rest := Encoded(single, values, layout[1..]);
      if Encodable(layout[0], values) && rest.Some? then Some(SampleBytes(single, layout[0], values) + rest.value)
      else None
  }

  /** It refuses exactly when some field cannot be carried: a value out of range is never wrapped. */
  lemma {:induction false} EncodedWhen(single: ToSingle, values: map<string, real>, layout: seq<Field>)
    ensures Encoded(single, values, layout).Some? <==> forall f :: f in layout ==> Encodable(f, values)
    decreases |layout|
  {
    if layout != [] {
      EncodedWhen(single, values, layout[1..]);
      assert layout == [layout[0]] + layout[1..];
    }
  }

  /** Half a step of the field's scale. */
  function HalfStep(f: Field): real {
    if f.kind == BITFIELD8 then 0.5 else 0.5 / Magnitude(if f.scale == 0.0 then 1.0 else f.scale)
  }

  function Magnitude(x: real): real {
    if x < 0.0 then -x else x
  }

  lemma Quotient(raw: real, v: real, s: real)
    requires s != 0.0 && -0.5 <= raw - v * s <= 0.5
    ensures Magnitude(raw / s - v) <= 0.5 / Magnitude(s)
  {
    var d := raw / s - v;
    assert d * s == raw - v * s;
    var m := Magnitude(s);
    assert Magnitude(d) * m <= 0.5;
    if Magnitude(d) > 0.5 / m {
      assert Magnitude(d) * m > 0.5 / m * m == 0.5;
    }
  }

  lemma NearStep(f: Field, v: real, raw: int)
    requires f.kind != BITFIELD8 && -0.5 <= raw as real - Scaled(f, v) <= 0.5
    ensures Magnitude(Physical(f, raw) - v) <= HalfStep(f)
  {
    Quotient(raw as real, v, Scale(f));
  }

  /** One encoded field decodes to within half a step of the value that went in. */
  lemma SampleNear(single: ToSingle, f: Field, values: map<string, real>)
    requires Encodable(f, values) && f.kind != F32T
    ensures var d := FieldValue(f, SampleBytes(single, f, values));
            d.Num? && Magnitude(d.r - values[f.name]) <= HalfStep(f)
  {
    var v := values[f.name];
    var raw := SampleRaw(f, v);
    var d := FieldValue(f, SampleBytes(single, f, values));
    RawValue(f, raw);
    if f.kind == BITFIELD8 {
      RoundNear(v);
    } else {
      RoundNear(Scaled(f, v));
      NearStep(f, v, raw);
    }
  }

  /** The value read from the bytes of a raw integer. */
  lemma RawValue(f: Field, raw: int)
    requires Known(f.kind) && HasRange(f.kind) && Lowest(f.kind) <= raw <= Highest(f.kind)
    ensures FieldValue(f, RawBytes(f.kind, raw)) == Num(if f.kind == BITFIELD8 then raw as real else Physical(f, raw))
  {
    RawIntOfBytes(f.kind, raw);
  }

  predicate Integral(layout: seq<Field>) {
    forall f :: f in layout ==> Known(f.kind) && HasRange(f.kind)
  }

  /** The value is within half a step of what was to be encoded. */
  predicate Near(f: Field, d: Val, values: map<string, real>) {
    d.Num? && f.name in values && Magnitude(d.r - values[f.name]) <= HalfStep(f)
  }

  predicate AllNear(layout: seq<Field>, ds: seq<Val>, values: map<string, real>)
    requires |ds| == |layout|
    decreases |layout|
  {
    layout == [] || (Near(layout[0], ds[0], values) && AllNear(layout[1..], ds[1..], values))
  }

  lemma {:induction false} NearAt(layout: seq<Field>, ds: seq<Val>, values: map<string, real>, i: nat)
    requires i < |ds| == |layout| && AllNear(layout, ds, values)
    ensures Near(layout[i], ds[i], values)
    decreases i
  {
    if i > 0 {
      NearAt(layout[1..], ds[1..], values, i - 1);
    }
  }

  lemma ValuesStep(before: seq<byte>, s: seq<byte>, rest: seq<byte>, layout: seq<Field>)
    requires layout != [] && Known(layout[0].kind) && |s| == TypeSize(layout[0].kind)
    requires Covers(before + s + rest, |before + s|, layout[1..])
    ensures var buf := before + (s + rest);
            buf == before + s + rest && Covers(buf, |before|, layout)
            && ValuesFrom(buf, |before|, layout) == [FieldValue(layout[0], s)] + ValuesFrom(buf, |before + s|, layout[1..])
  {
    Rebracket(before, s, rest);
    assert (before + s + rest)[|before|..|before| + |s|] == s;
  }

  lemma {:induction false} EncodedDecodesFrom(single: ToSingle, values: map<string, real>, before: seq<byte>, layout: seq<Field>)
    requires Integral(layout) && Encoded(single, values, layout).Some?
    ensures var buf := before + Encoded(single, values, layout).value;
            Covers(buf, |before|, layout) && AllNear(layout, ValuesFrom(buf, |before|, layout), values)
    decreases |layout|
  {
    if layout != [] {
      var f, more := layout[0], layout[1..];
      var s, rest := SampleBytes(single, f, values), Encoded(single, values, more).value;
      EncodedDecodesFrom(single, values, before + s, more);
      SampleNear(single, f, values);
      ValuesStep(before, s, rest, layout);
      var buf := before + (s + rest);
      assert ValuesFrom(buf, |before|, layout)[1..] == ValuesFrom(buf, |before + s|, more);
    }
  }

  /** Decoding an encoded sample gives every value back to within half a step of its scale. */
  lemma DecodeOfEncode(single: ToSingle, values: map<string, real>, layout: seq<Field>, i: nat)
    requires i < |layout| && Integral(layout) && DistinctNames(layout) && Encoded(single, values, layout).Some?
    ensures var m, f := Decoded(Encoded(single, values, layout).value, layout), layout[i];
            f.name in m && Near(f, m[f.name], values)
  {
    var enc := Encoded(single, values, layout).value;
    EncodedDecodesFrom(single, values, [], layout);
    NothingAfter(enc);
    NearAt(layout, Values(enc, layout), values, i);
    ReadByName(enc, layout, i);
  }

  /** A decoded integer field rounds back to the very bytes it came from. */
  lemma SampleOfValue(single: ToSingle, f: Field, s: seq<byte>, values: map<string, real>)
    requires Known(f.kind) && HasRange(f.kind) && |s| == TypeSize(f.kind)
    requires f.name in values && FieldValue(f, s) == Num(values[f.name])
    ensures Encodable(f, values) && SampleBytes(single, f, values) == s
  {
    var n := RawInt(f.kind, s);
    RawBytesOfInt(f.kind, s);
    RoundInt(n);
    if f.kind == BITFIELD8 {
      assert values[f.name] == n as real;
    } else {
      ScaledPhysical(f, n);
      assert values[f.name] == Physical(f, n);
    }
    assert SampleRaw(f, values[f.name]) == n;
  }

  lemma PrefixJoin(payload: seq<byte>, off: nat, end: nat, rest: seq<byte>)
    requires off <= end <= |payload| && rest <= payload[end..]
    ensures payload[off..end] + rest <= payload[off..]
  {
    assert payload[off..] == payload[off..end] + payload[end..];
  }

  /** The values of a layout are these numbers. */
  ghost predicate Holds(layout: seq<Field>, ds: seq<Val>, values: map<string, real>)
    requires |ds| == |layout|
  {
    forall i :: 0 <= i < |layout| ==> layout[i].name in values && ds[i] == Num(values[layout[i].name])
  }

  lemma HoldsRest(payload: seq<byte>, off: nat, layout: seq<Field>, values: map<string, real>)
    requires layout != [] && Covers(payload, off, layout) && Holds(layout, ValuesFrom(payload, off, layout), values)
    ensures var f, end := layout[0], off + TypeSize(layout[0].kind);
            && f.name in values && FieldValue(f, payload[off..end]) == Num(values[f.name])
            && Holds(layout[1..], ValuesFrom(payload, end, layout[1..]), values)
  {
    hide FieldValue, TypeSize;
    var all, tail := ValuesFrom(payload, off, layout), ValuesFrom(payload, off + TypeSize(layout[0].kind), layout[1..]);
    assert all[0] == FieldValue(layout[0], payload[off..off + TypeSize(layout[0].kind)]);
    forall i | 0 <= i < |layout[1..]|
      ensures layout[1..][i] == layout[i + 1] && tail[i] == all[i + 1]
    {
    }
  }

  lemma {:induction false} EncodesBackFrom(single: ToSingle, payload: seq<byte>, off: nat, layout: seq<Field>, values: map<string, real>)
    requires Integral(layout) && Covers(payload, off, layout) && off <= |payload|
    requires Holds(layout, ValuesFrom(payload, off, layout), values)
    ensures Encoded(single, values, layout).Some? && Encoded(single, values, layout).value <= payload[off..]
    decreases |layout|
  {
    hide SampleBytes, FieldValue, Encodable, TypeSize, Holds, ValuesFrom;
    if layout != [] {
      var f, more := layout[0], layout[1..];
      var end := off + TypeSize(f.kind);
      HoldsRest(payload, off, layout, values);
      EncodesBackFrom(single, payload, end, more, values);
      SampleOfValue(single, f, payload[off..end], values);
      PrefixJoin(payload, off, end, Encoded(single, values, more).value);
    }
  }

  /** The numbers of a decoded object. */
  function Numbers(m: map<string, Val>): map<string, real> {
    map x | x in m && m[x].Num? :: m[x].r
  }

  function LayoutBytes(layout: seq<Field>): nat
    decreases |layout|
  {
    if layout == [] then 0 else FieldSize(layout[0]) + LayoutBytes(layout[1..])
  }

  lemma NumberByName(payload: seq<byte>, layout: seq<Field>, i: nat)
    requires i < |layout| && Integral(layout) && DistinctNames(layout) && Covers(payload, 0, layout)
    ensures var values := Numbers(Decoded(payload, layout));
            layout[i].name in values && Values(payload, layout)[i] == Num(values[layout[i].name])
  {
    ReadByName(payload, layout, i);
    NumbersOnly(payload, 0, layout, i);
  }

  /** Encoding a decoded integer sample gives back exactly its bytes. */
  lemma EncodeOfDecode(single: ToSingle, payload: seq<byte>, layout: seq<Field>)
    requires Integral(layout) && DistinctNames(layout) && |payload| == LayoutBytes(layout)
    ensures Encoded(single, Numbers(Decoded(payload, layout)), layout) == Some(payload)
  {
    CoversAll(payload, 0, layout);
    var values := Numbers(Decoded(payload, layout));
    forall i | 0 <= i < |layout|
      ensures layout[i].name in values && ValuesFrom(payload, 0, layout)[i] == Num(values[layout[i].name])
    {
      NumberByName(payload, layout, i);
    }
    EncodesBackFrom(single, payload, 0, layout, values);
    EncodedLength(single, values, layout);
    SamePrefix(Encoded(single, values, layout).value, payload);
  }

  lemma SamePrefix(a: seq<byte>, b: seq<byte>)
    requires |a| == |b| && a <= b[0..]
    ensures a == b
  {
  }

  lemma {:induction false} NumbersOnly(payload: seq<byte>, off: nat, layout: seq<Field>, i: nat)
    requires i < |layout| && Integral(layout) && Covers(payload, off, layout)
    ensures ValuesFrom(payload, off, layout)[i].Num?
    decreases |layout|
  {
    var end := off + TypeSize(layout[0].kind);
    assert layout[0] in layout;
    if i > 0 {
      NumbersOnly(payload, end, layout[1..], i - 1);
    }
  }

  lemma {:induction false} EncodedLength(single: ToSingle, values: map<string, real>, layout: seq<Field>)
    requires Encoded(single, values, layout).Some?
    ensures |Encoded(single, values, layout).value| == LayoutBytes(layout)
    decreases |layout|
  {
    if layout != [] {
      EncodedLength(single, values, layout[1..]);
    }
  }

  lemma {:induction false} CoversAll(payload: seq<byte>, off: nat, layout: seq<Field>)
    requires (forall f :: f in layout ==> Known(f.kind)) && off + LayoutBytes(layout) <= |payload|
    ensures Covers(payload, off, layout)
    decreases |layout|
  {
    if layout != [] {
      assert layout[0] in layout;
      CoversAll(payload, off + TypeSize(layout[0].kind), layout[1..]);
    }
  }

  /** The sample encoder's loop. */
  method EncodePacked(single: ToSingle, values: map<string, real>, layout: seq<Field>) returns (r: Option<seq<byte>>)
    ensures r == Encoded(single, values, layout)
  {
    var out: seq<byte>, i := [], 0;
    ghost var rest := layout;
    if Encoded(single, values, layout).Some? {
      NothingAfter(Encoded(single, values, layout).value);
    }
    while i < |layout|
      invariant 0 <= i <= |layout| && rest == layout[i..]
      invariant Encoded(single, values, layout).Some? <==> Encoded(single, values, rest).Some?
      invariant Encoded(single, values, rest).Some? ==>
                  Encoded(single, values, layout).value == out + Encoded(single, values, rest).value
    {
      var f := layout[i];
      assert rest[0] == f && rest[1..] == layout[i + 1..];
      if !Encodable(f, values) {
        return None;
      }
      if Encoded(single, values, rest[1..]).Some? {
        Rebracket(out, SampleBytes(single, f, values), Encoded(single, values, rest[1..]).value);
      }
      out := out + SampleBytes(single, f, values);
      rest := rest[1..];
      i := i + 1;
    }
    NothingAfter(out);
    r := Some(out);
  }

  // ---- writeField -------------------------------------------------------------------------------

  /** `PACKED_SIZE[f.type] ?? f.declaredSize ?? 0`. */
  function FieldSize(f: Field): nat {
    if Known(f.kind) then TypeSize(f.kind) else if f.declaredSize.Some? then f.declaredSize.value else 0
  }

  function Offset(layout: seq<Field>, i: nat): nat
    requires i <= |layout|
    decreases i
  {
    if i == 0 then 0 else FieldSize(layout[0]) + Offset(layout[1..], i - 1)
  }

  /** A written value as a number: true is 1. Text in a numeric field is not a number and stores 0. */
  function AsNumber(v: Val): real {
    match v
    case Num(r) => r
    case Flag(on) => if on then 1.0 else 0.0
    case Text(b) => 0.0
    case Single(q) => 0.0
  }

  /** ToInt32 & 0xff. */
  function LowByte(x: real): byte {
    (if x >= 0.0 then x.Floor else -((-x).Floor)) % 0x100
  }

  function Saturated(kind: nat, n: int): (r: int)
    requires HasRange(kind)
    ensures Lowest(kind) <= r <= Highest(kind)
  {
    if n < Lowest(kind) then Lowest(kind) else if n > Highest(kind) then Highest(kind) else n
  }

  /** At most `max` bytes of a string. */
  function Shortened(b: seq<byte>, max: nat): (r: seq<byte>)
    ensures r <= b && |r| <= max
  {
    if |b| <= max then b else b[..max]
  }

  function Zeros(n: nat): (r: seq<byte>)
    ensures |r| == n && forall i :: 0 <= i < n ==> r[i] == 0
  {
    seq(n, i => 0)
  }

  /** The bytes `writeField` stores for a known type. */
  function WrittenBytes(single: ToSingle, f: Field, v: Val): (s: seq<byte>)
    requires Known(f.kind)
    ensures |s| == TypeSize(f.kind)
  {
    if IsStr(f.kind) then
      var b := Shortened(if v.Text? then v.b else [], TypeSize(f.kind) - 1);
      b + Zeros(TypeSize(f.kind) - |b|)
    else if f.kind == F32T then
      QuadBytes(if v.Single? then v.q else single(Scaled(f, AsNumber(v))))
    else if f.kind == BITFIELD8 then [LowByte(AsNumber(v))]
    else RawBytes(f.kind, Saturated(f.kind, RoundUp(Scaled(f, AsNumber(v)))))
  }

  /** The value a field takes when `v` is written to it: rounded, saturated, cut to size. */
  function Stored(single: ToSingle, f: Field, v: Val): Val
    requires Known(f.kind)
  {
    if IsStr(f.kind) then Text(Trimmed(Shortened(if v.Text? then v.b else [], TypeSize(f.kind) - 1)))
    else if f.kind == F32T then Val.Single(if v.Single? then v.q else single(Scaled(f, AsNumber(v))))
    else if f.kind == BITFIELD8 then Num(LowByte(AsNumber(v)) as real)
    else Num(Physical(f, Saturated(f.kind, RoundUp(Scaled(f, AsNumber(v))))))
  }

  lemma TrimmedUnique(s: seq<byte>, t: seq<byte>)
    requires t <= s && (t == [] || t[|t| - 1] != 0) && forall i :: |t| <= i < |s| ==> s[i] == 0
    ensures Trimmed(s) == t
  {
    var u := Trimmed(s);
    assert u == s[..|u|] && t == s[..|t|];
  }

  lemma TrimPadded(b: seq<byte>, n: nat)
    ensures Trimmed(b + Zeros(n)) == Trimmed(b)
  {
    TrimmedUnique(b + Zeros(n), Trimmed(b));
  }

  lemma WrittenText(single: ToSingle, f: Field, v: Val)
    requires IsStr(f.kind)
    ensures FieldValue(f, WrittenBytes(single, f, v)) == Stored(single, f, v)
  {
    hide RawBytes, RawInt, RoundUp, Physical, Scaled, Saturated, LowByte, Trimmed;
    var b := Shortened(if v.Text? then v.b else [], TypeSize(f.kind) - 1);
    TrimPadded(b, TypeSize(f.kind) - |b|);
  }

  lemma WrittenInt(single: ToSingle, f: Field, v: Val)
    requires IsInt(f.kind)
    ensures FieldValue(f, WrittenBytes(single, f, v)) == Stored(single, f, v)
  {
    RawValue(f, Saturated(f.kind, RoundUp(Scaled(f, AsNumber(v)))));
  }

  /** What is written reads back as the stored value. */
  lemma WrittenReads(single: ToSingle, f: Field, v: Val)
    requires Known(f.kind)
    ensures FieldValue(f, WrittenBytes(single, f, v)) == Stored(single, f, v)
  {
    if IsStr(f.kind) {
      WrittenText(single, f, v);
    } else if IsInt(f.kind) {
      WrittenInt(single, f, v);
    }
  }

  /** A value the writer can put back unchanged: a string must leave room for one zero. */
  predicate Restorable(f: Field, v: Val)
    requires Known(f.kind)
  {
    if IsStr(f.kind) then v.Text? && |v.b| < TypeSize(f.kind) && (v.b == [] || v.b[|v.b| - 1] != 0)
    else if f.kind == F32T then v.Single?
    else if f.kind == BITFIELD8 then v.Num? && 0 <= v.r.Floor < 0x100 && v.r == v.r.Floor as real
    else v.Num? && var n := RoundUp(Scaled(f, v.r)); Lowest(f.kind) <= n <= Highest(f.kind) && v.r == Physical(f, n)
  }

  /** An integer a field can hold, read as a physical value, is restorable. */
  lemma IntRestorable(f: Field, n: int)
    requires IsInt(f.kind) && Lowest(f.kind) <= n <= Highest(f.kind)
    ensures Restorable(f, Num(Physical(f, n)))
  {
    ScaledPhysical(f, n);
    RoundInt(n);
  }

  /** Everything a field can hold is restorable, except a string that fills its width. */
  lemma ReadRestorable(f: Field, s: seq<byte>)
    requires Known(f.kind) && |s| == TypeSize(f.kind)
    ensures Restorable(f, FieldValue(f, s)) <==> !(IsStr(f.kind) && s[|s| - 1] != 0)
  {
    if IsInt(f.kind) {
      IntRestorable(f, RawInt(f.kind, s));
    }
  }

  lemma StoredRestorable(single: ToSingle, f: Field, v: Val)
    requires Known(f.kind)
    ensures Restorable(f, Stored(single, f, v))
  {
    if IsInt(f.kind) {
      IntRestorable(f, Saturated(f.kind, RoundUp(Scaled(f, AsNumber(v)))));
    }
  }

  /** Writing back a value stores exactly that value if and only if it is restorable. */
  lemma RestoreExact(single: ToSingle, f: Field, v: Val)
    requires Known(f.kind)
    ensures Stored(single, f, v) == v <==> Restorable(f, v)
  {
    if Restorable(f, v) {
      if IsStr(f.kind) {
        TrimmedUnique(v.b, v.b);
      }
    } else {
      StoredRestorable(single, f, v);
    }
  }

  function Grown(snap: seq<byte>, n: nat): (r: seq<byte>)
    ensures |r| >= n && snap <= r
  {
    if |snap| >= n then snap else snap + Zeros(n - |snap|)
  }

  /** The snapshot after `writeField`. */
  function WriteField(single: ToSingle, snap: seq<byte>, layout: seq<Field>, i: nat, v: Val): seq<byte>
    requires i < |layout|
  {
    var off := Offset(layout, i);
    var out := Grown(snap, off + FieldSize(layout[i]));
    if Known(layout[i].kind) then Overwritten(out, off, WrittenBytes(single, layout[i], v)) else out
  }

  lemma {:induction false} SameTail(a: seq<byte>, b: seq<byte>, off: nat, layout: seq<Field>)
    requires |a| == |b| && off <= |a| && a[off..] == b[off..] && Covers(a, off, layout)
    ensures Covers(b, off, layout) && ValuesFrom(b, off, layout) == ValuesFrom(a, off, layout)
    decreases |layout|
  {
    hide FieldValue;
    if layout != [] {
      var end := off + TypeSize(layout[0].kind);
      assert a[end..] == a[off..][end - off..] && b[end..] == b[off..][end - off..];
      assert a[off..end] == a[off..][..end - off] && b[off..end] == b[off..][..end - off];
      SameTail(a, b, end, layout[1..]);
    }
  }

  lemma OverwrittenParts(s: seq<byte>, at: nat, b: seq<byte>, r: seq<byte>)
    requires at + |b| <= |s| && r == Overwritten(s, at, b)
    ensures r[at..at + |b|] == b && r[at + |b|..] == s[at + |b|..] && r[..at] == s[..at]
  {
  }

  lemma SliceOfPrefix(s: seq<byte>, r: seq<byte>, at: nat, lo: nat, hi: nat)
    requires lo <= hi <= at <= |s| == |r| && r[..at] == s[..at]
    ensures r[lo..hi] == s[lo..hi]
  {
    assert r[lo..hi] == r[..at][lo..hi] && s[lo..hi] == s[..at][lo..hi];
  }

  lemma {:induction false} OffsetCovered(s: seq<byte>, off: nat, layout: seq<Field>, i: nat)
    requires i < |layout| && off <= |s| && Covers(s, off, layout)
    ensures Known(layout[i].kind) && off + Offset(layout, i) + TypeSize(layout[i].kind) <= |s|
    decreases |layout|
  {
    if i > 0 {
      OffsetCovered(s, off + TypeSize(layout[0].kind), layout[1..], i - 1);
    }
  }

  lemma SetHead(x: Val, a: seq<Val>, v: Val)
    ensures ([x] + a)[0 := v] == [v] + a
  {
  }

  lemma SetTail(x: Val, a: seq<Val>, i: nat, v: Val)
    requires i < |a|
    ensures ([x] + a)[i + 1 := v] == [x] + a[i := v]
  {
  }

  /** Bytes `b` put over field `i`, and nothing else changed. */
  lemma {:induction false} OverwriteValue(s: seq<byte>, r: seq<byte>, off: nat, layout: seq<Field>, i: nat, at: nat, b: seq<byte>)
    requires i < |layout| && off <= |s| == |r| && Covers(s, off, layout) && at == off + Offset(layout, i)
    requires Known(layout[i].kind) && |b| == TypeSize(layout[i].kind) && at + |b| <= |s|
    requires r[at..at + |b|] == b && r[at + |b|..] == s[at + |b|..] && r[..at] == s[..at]
    ensures Covers(r, off, layout) && ValuesFrom(r, off, layout) == ValuesFrom(s, off, layout)[i := FieldValue(layout[i], b)]
    decreases |layout|
  {
    hide FieldValue;
    var f, end, rest := layout[0], off + TypeSize(layout[0].kind), layout[1..];
    var a := ValuesFrom(s, end, rest);
    if i == 0 {
      SameTail(s, r, end, rest);
      SetHead(FieldValue(f, s[off..end]), a, FieldValue(f, b));
    } else {
      assert rest[i - 1] == layout[i];
      OverwriteValue(s, r, end, rest, i - 1, at, b);
      SliceOfPrefix(s, r, at, off, end);
      SetTail(FieldValue(f, s[off..end]), a, i - 1, FieldValue(layout[i], b));
    }
  }

  /** Writing one field stores its rounded, saturated value and leaves every other field as it was. */
  lemma WriteFieldStores(single: ToSingle, snap: seq<byte>, layout: seq<Field>, i: nat, v: Val)
    requires i < |layout| && Covers(snap, 0, layout) && Known(layout[i].kind)
    ensures var r := WriteField(single, snap, layout, i, v);
            |r| == |snap| && Covers(r, 0, layout)
            && Values(r, layout) == Values(snap, layout)[i := Stored(single, layout[i], v)]
  {
    var b := WrittenBytes(single, layout[i], v);
    OffsetCovered(snap, 0, layout, i);
    var r := Overwritten(snap, Offset(layout, i), b);
    OverwrittenParts(snap, Offset(layout, i), b, r);
    OverwriteValue(snap, r, 0, layout, i, Offset(layout, i), b);
    WrittenReads(single, layout[i], v);
  }

  /** The hub's one-field writer, over a buffer that may have to grow. */
  method WriteSnapshot(single: ToSingle, snap: seq<byte>, layout: seq<Field>, i: nat, v: Val) returns (r: seq<byte>)
    requires i < |layout|
    ensures r == WriteField(single, snap, layout, i, v)
  {
    hide WrittenBytes;
    var off: nat, k := 0, 0;
    ghost var rest := layout;
    while k < i
      invariant 0 <= k <= i && rest == layout[k..]
      invariant Offset(layout, i) == off + Offset(rest, i - k)
    {
      assert rest[0] == layout[k] && rest[1..] == layout[k + 1..];
      off := off + FieldSize(layout[k]);
      rest := rest[1..];
      k := k + 1;
    }
    var size := FieldSize(layout[i]);
    var n := if |snap| >= off + size then |snap| else off + size;
    var out := new byte[n];
    forall j | 0 <= j < n {
      out[j] := if j < |snap| then snap[j] else 0;
    }
    ghost var grown := out[..];
    assert grown == Grown(snap, off + size);
    if Known(layout[i].kind) {
      var b := WrittenBytes(single, layout[i], v);
      forall j | 0 <= j < |b| {
        out[off + j] := b[j];
      }
      assert out[..] == Overwritten(grown, off, b) by { Written(out[..], grown, off, b); }
    }
    r := out[..];
  }

  lemma Written(r: seq<byte>, s: seq<byte>, off: nat, b: seq<byte>)
    requires |r| == |s| && off + |b| <= |s|
    requires forall j :: 0 <= j < |s| ==> r[j] == if off <= j < off + |b| then b[j - off] else s[j]
    ensures r == Overwritten(s, off, b)
  {
  }
}
