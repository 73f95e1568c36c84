/** The hub as it is created (clients/js/localhub.js): snapshots replayed or fresh, items, rosters synced. */
module HubStart {
  import opened Bytes
  import opened Packed
  import opened HubCatalog
  import opened Hub
  import opened HubPlaces
  import opened HubPieces
  import PackedWrite

  /** An item the hub is created with. */
  datatype Kept = Kept(storeId: nat, item: Item)

  /**
   * What the hub is created from: the values its replayed snapshots read, channel by channel, in the
   * order of their layouts; the latch its safety snapshot reads; its items.
   */
  datatype Given = Given(snapshots: map<nat, seq<Val>>, latch: Latch, items: seq<Kept>)

  /** What a place of a fresh snapshot reads: its initial value as stored, or a field of zero bytes. */
  function FreshValue(cat: Catalog, l: Loc): Val
    requires cat.WellFormed() && cat.HasLoc(l)
  {
    cat.Placed(l);
    var f := cat.At(l).f;
    if cat.At(l).init.Some? then StoredAt(cat, l, cat.At(l).init.value)
    else FieldValue(f, PackedWrite.Zeros(TypeSize(f.kind)))
  }

  predicate Replayed(g: Given, l: Loc) {
    l.ch in g.snapshots && l.i < |g.snapshots[l.ch]|
  }

  /** What a place reads before the rosters are synced. */
  function FirstValue(cat: Catalog, g: Given, l: Loc): Val
    requires cat.WellFormed() && cat.HasLoc(l)
  {
    if Replayed(g, l) then g.snapshots[l.ch][l.i] else FreshValue(cat, l)
  }

  function FirstValues(cat: Catalog, g: Given): (vals: map<Loc, Val>)
    requires cat.WellFormed()
    ensures Fits(cat, vals)
  {
    map l | l in cat.Locs() :: (cat.Placed(l); FirstValue(cat, g, l))
  }

  /** The first `n` items given, a later one in the place of an earlier. */
  function FirstItems(kept: seq<Kept>, n: nat): map<nat, Item>
    requires n <= |kept|
  {
    if n == 0 then map[]
    else FirstItems(kept, n - 1)[ItemKey(kept[n - 1].storeId, kept[n - 1].item.slot) := kept[n - 1].item]
  }

  /** `value | 0`, as the generation of a store. */
  function ToGeneration(v: Val): u16 {
    if v.Num? then (if v.r >= 0.0 then v.r.Floor else -((-v.r).Floor)) % 0x1_0000 else 0
  }

  /** The generation a store's roster reads. */
  function RosterGen(cat: Catalog, vals: map<Loc, Val>, sid: nat): u16
    requires Fits(cat, vals)
  {
    match RosterIn(cat.entries, sid)
    case None => 0
    case Some(r) =>
      RosterIsState(cat.entries, sid);
      var i := FieldNamed(r.layout, "generation", 0);
      if i.None? then 0 else (RosterField(cat, sid, i.value); ToGeneration(vals[Loc(r.id, i.value)]))
  }

  lemma RosterField(cat: Catalog, sid: nat, i: nat)
    requires cat.WellFormed() && RosterIn(cat.entries, sid).Some?
    requires RosterIn(cat.entries, sid).value.StateEntry? && i < |RosterIn(cat.entries, sid).value.layout|
    ensures Loc(RosterIn(cat.entries, sid).value.id, i) in cat.Locs()
  {
    RosterIsState(cat.entries, sid);
    var r := RosterIn(cat.entries, sid).value;
    assert r in cat.entries && 0 <= i < |r.layout|;
  }

  lemma {:induction false} StoreThere(entries: seq<Entry>, e: Entry)
    requires e in entries && e.StoreEntry?
    ensures StoreIn(entries, e.store.storeId).Some? && StoreIn(entries, e.store.storeId).value.StoreEntry?
    ensures StoreIn(entries, e.store.storeId).value.store.storeId == e.store.storeId
  {
    StoreIsStore(entries, e.store.storeId);
    if !(entries[0].StoreEntry? && entries[0].store.storeId == e.store.storeId) {
      StoreThere(entries[1..], e);
    }
  }

  /** One store: its generation is taken from its roster, and the roster synced. */
  function SyncedStore(cat: Catalog, s: State, sid: nat, capacity: nat): (r: State)
    requires Fits(cat, s.vals)
    ensures Fits(cat, r.vals)
  {
    SyncRoster(cat, s.(gens := s.gens[sid := RosterGen(cat, s.vals, sid)]), sid, capacity)
  }

  /** The stores among the first `n` entries, one after the other. */
  function SyncedStores(cat: Catalog, s: State, n: nat): (r: State)
    requires Fits(cat, s.vals) && n <= |cat.entries|
    ensures Fits(cat, r.vals)
  {
    if n == 0 then s
    else
      var t, e := SyncedStores(cat, s, n - 1), cat.entries[n - 1];
      if e.StoreEntry? then
        StoreThere(cat.entries, e);
        SyncedStore(cat, t, e.store.storeId, StoreIn(cat.entries, e.store.storeId).value.store.capacity)
      else t
  }

  /** The hub before its rosters are synced: no trial, no connection, configuration generation 1. */
  function Unsynced(cat: Catalog, g: Given): (s: State)
    requires cat.WellFormed()
    ensures Fits(cat, s.vals)
  {
    State(FirstValues(cat, g), g.latch, FirstItems(g.items, |g.items|), map[], map[], 1, map[])
  }

  /** `createLocalHub`. */
  function Created(cat: Catalog, g: Given): (s: State)
    requires cat.WellFormed()
    ensures Fits(cat, s.vals)
  {
    SyncedStores(cat, Unsynced(cat, g), |cat.entries|)
  }

  // ---- filling snapshots in, field by field ------------------------------------------------------

  lemma StartPlaces(cat: Catalog)
    ensures PlacesTo(cat.entries, 0) == {}
  {
  }

  lemma AddPlaces(cat: Catalog, n: nat)
    requires n < |cat.entries|
    ensures PlacesTo(cat.entries, n + 1)
         == if cat.entries[n].StateEntry? then PlacesTo(cat.entries, n) + PlacesOf(cat.entries[n].id, |cat.entries[n].layout|)
            else PlacesTo(cat.entries, n)
  {
  }

  /** The first value of a place, case by case. */
  lemma FirstIs(cat: Catalog, g: Given, l: Loc)
    requires cat.WellFormed() && cat.HasLoc(l)
    ensures Known(cat.At(l).f.kind)
    ensures FirstValue(cat, g, l)
         == if l.ch in g.snapshots && l.i < |g.snapshots[l.ch]| then g.snapshots[l.ch][l.i]
            else if cat.At(l).init.Some? then StoredAt(cat, l, cat.At(l).init.value)
            else FieldValue(cat.At(l).f, PackedWrite.Zeros(TypeSize(cat.At(l).f.kind)))
  {
    cat.Placed(l);
  }

  lemma FilledAll(cat: Catalog, g: Given, vals: map<Loc, Val>)
    requires cat.WellFormed() && vals.Keys == PlacesTo(cat.entries, |cat.entries|)
    requires forall l :: l in vals ==> cat.HasLoc(l) && vals[l] == FirstValue(cat, g, l)
    ensures vals == FirstValues(cat, g)
  {
    hide FirstValue, PlacesTo, cat.WellFormed;
    forall l
      ensures l in vals <==> l in cat.Locs()
    {
      cat.Placed(l);
      if l in cat.Locs() {
        AllPlaces(cat, l);
      }
    }
  }

  lemma NoTrials(cat: Catalog)
    ensures BasesPlaced(cat, map[])
  {
  }
}
