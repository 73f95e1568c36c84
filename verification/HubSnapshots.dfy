/** The hub's values are the bytes of its snapshots (clients/js/localhub.js). */
module HubSnapshots {
  import opened Bytes
  import opened Packed
  import opened HubCatalog
  import opened Hub
  import opened HubPlaces
  import PackedWrite

  function FieldsOf(layout: seq<LayoutField>): (fs: seq<Field>)
    ensures |fs| == |layout| && forall i :: 0 <= i < |layout| ==> fs[i] == layout[i].f
  {
    seq(|layout|, i requires 0 <= i < |layout| => layout[i].f)
  }

  /** What a place reads from the bytes of its channel's snapshot. */
  ghost predicate Reads(cat: Catalog, snaps: map<nat, seq<byte>>, l: Loc, v: Val) {
    && cat.HasLoc(l) && l.ch in snaps
    && var fs := FieldsOf(cat.StateAt(l).layout);
    Packed.Covers(snaps[l.ch], 0, fs) && ReadsAt(snaps[l.ch], fs, l.i, v)
  }

  ghost predicate ReadsAt(snap: seq<byte>, fs: seq<Field>, i: nat, v: Val)
    requires Packed.Covers(snap, 0, fs)
  {
    i < |Values(snap, fs)| && Values(snap, fs)[i] == v
  }

  /** The values a state holds are those its snapshots' bytes decode to. */
  ghost predicate Represents(cat: Catalog, snaps: map<nat, seq<byte>>, vals: map<Loc, Val>) {
    Fits(cat, vals) && forall l :: l in vals ==> Reads(cat, snaps, l, vals[l])
  }

  /** Writing one field into a channel's bytes sets that place of the values and no other. */
  lemma SetFieldBytes(cat: Catalog, snaps: map<nat, seq<byte>>, vals: map<Loc, Val>, l: Loc, v: Val)
    requires Represents(cat, snaps, vals) && l in vals
    ensures cat.HasLoc(l) && l.ch in snaps
    ensures var snap := PackedWrite.WriteField(cat.single, snaps[l.ch], FieldsOf(cat.StateAt(l).layout), l.i, v);
            && |snap| == |snaps[l.ch]|
            && Represents(cat, snaps[l.ch := snap], vals[l := After(cat, vals, l, Some(v))])
  {
    hide PackedWrite.WriteField, PackedWrite.Stored;
    assert Reads(cat, snaps, l, vals[l]);
    cat.Placed(l);
    var fs := FieldsOf(cat.StateAt(l).layout);
    var snap := PackedWrite.WriteField(cat.single, snaps[l.ch], fs, l.i, v);
    PackedWrite.WriteFieldStores(cat.single, snaps[l.ch], fs, l.i, v);
    var after, sets := vals[l := After(cat, vals, l, Some(v))], snaps[l.ch := snap];
    forall m | m in after
      ensures Reads(cat, sets, m, after[m])
    {
      assert Reads(cat, snaps, m, vals[m]);
    }
  }
}
