/** Runs of the hub from its creation (clients/js/localhub.js): what it starts with, and so what every run keeps. */
module HubRuns {
  import opened Bytes
  import opened Packed
  import opened HubCatalog
  import opened Hub
  import opened HubPlaces
  import opened HubStart
  import opened HubTrials
  import opened HubSteps
  import opened HubSafety
  import opened HubLayers
  import opened HubSources
  import opened HubDerived
  import opened HubIntents
  import opened HubControl
  import opened HubRosters
  import opened HubStores
  import opened HubViews
  import opened HubSight
  import PackedWrite

  // ---- what syncing the rosters leaves alone -------------------------------------------------------

  /** Nothing but rosters and generations differs. */
  ghost predicate Synced(s: State, t: State) {
    && t.latch == s.latch && t.items == s.items && t.trials == s.trials && t.conns == s.conns && t.cfgGen == s.cfgGen
    && t.vals.Keys == s.vals.Keys
  }

  lemma StoreSynced(cat: Catalog, s: State, sid: nat, capacity: nat)
    requires Fits(cat, s.vals)
    ensures Synced(s, SyncedStore(cat, s, sid, capacity))
  {
    hide RosterGen;
  }

  lemma {:induction false} AllSynced(cat: Catalog, s: State, n: nat)
    requires Fits(cat, s.vals) && n <= |cat.entries|
    ensures Synced(s, SyncedStores(cat, s, n))
  {
    hide SyncedStore, Fits;
    if n > 0 {
      AllSynced(cat, s, n - 1);
      if cat.entries[n - 1].StoreEntry? {
        StoreThere(cat.entries, cat.entries[n - 1]);
        var sid := cat.entries[n - 1].store.storeId;
        StoreSynced(cat, SyncedStores(cat, s, n - 1), sid, StoreIn(cat.entries, sid).value.store.capacity);
      }
    }
  }

  /** A place that is no roster field is not written. */
  lemma {:induction false} SyncedKeeps(cat: Catalog, s: State, n: nat, l: Loc)
    requires Fits(cat, s.vals) && n <= |cat.entries| && l in s.vals && !IsRosterField(cat, l)
    ensures l in SyncedStores(cat, s, n).vals && SyncedStores(cat, s, n).vals[l] == s.vals[l]
  {
    hide SyncedStore, Fits, IsRosterField;
    if n > 0 {
      SyncedKeeps(cat, s, n - 1, l);
      if cat.entries[n - 1].StoreEntry? {
        StoreThere(cat.entries, cat.entries[n - 1]);
        var sid := cat.entries[n - 1].store.storeId;
        StoreKeeps(cat, SyncedStores(cat, s, n - 1), sid, StoreIn(cat.entries, sid).value.store.capacity, l);
      }
    }
  }

  lemma StoreKeeps(cat: Catalog, s: State, sid: nat, capacity: nat, l: Loc)
    requires Fits(cat, s.vals) && l in s.vals && !IsRosterField(cat, l)
    ensures l in SyncedStore(cat, s, sid, capacity).vals && SyncedStore(cat, s, sid, capacity).vals[l] == s.vals[l]
  {
    hide RosterGen, IsRosterField;
    cat.Placed(l);
    if RosterIn(cat.entries, sid).Some? {
      RosterIsState(cat.entries, sid);
      RosterFieldIs(cat, sid, l, RosterGen(cat, s.vals, sid), |KeysOf(s.items, sid)|, capacity);
    }
  }

  // ---- rosters -------------------------------------------------------------------------------------------

  lemma SyncedShows(cat: Catalog, s: State, sid: nat, l: Loc)
    requires Fits(cat, s.vals) && l in s.vals && HasStore(cat, sid)
    ensures var t := SyncedStore(cat, s, sid, DescOf(cat, sid).capacity); l in t.vals && ShowsRoster(cat, t, sid, l)
  {
    hide RosterGen;
    if RosterIn(cat.entries, sid).Some? {
      RosterIsState(cat.entries, sid);
    }
  }

  /** Syncing one store leaves the roster of another. */
  lemma OtherSynced(cat: Catalog, s: State, sid: nat, capacity: nat, other: nat, l: Loc)
    requires Fits(cat, s.vals) && l in s.vals && HasStore(cat, other) && other != sid && ShowsRoster(cat, s, other, l)
    ensures var t := SyncedStore(cat, s, sid, capacity); l in t.vals && ShowsRoster(cat, t, other, l)
  {
    hide RosterGen;
    RostersDiffer(cat, sid, other);
  }

  lemma {:induction false} SyncedAgree(cat: Catalog, s: State, n: nat, sid: nat, j: nat, l: Loc)
    requires Fits(cat, s.vals) && j < n <= |cat.entries| && l in s.vals
    requires cat.entries[j].StoreEntry? && cat.entries[j].store.storeId == sid && HasStore(cat, sid)
    ensures var t := SyncedStores(cat, s, n); l in t.vals && ShowsRoster(cat, t, sid, l)
    decreases n
  {
    hide SyncedStore, Fits, ShowsRoster, HasStore;
    var t, e := SyncedStores(cat, s, n - 1), cat.entries[n - 1];
    AllSynced(cat, s, n - 1);
    if j < n - 1 {
      SyncedAgree(cat, s, n - 1, sid, j, l);
    }
    if e.StoreEntry? {
      StoreThere(cat.entries, e);
      if e.store.storeId == sid {
        SyncedShows(cat, t, sid, l);
      } else {
        OtherSynced(cat, t, e.store.storeId, StoreIn(cat.entries, e.store.storeId).value.store.capacity, sid, l);
      }
    }
  }

  lemma {:induction false} StoreAtIndex(entries: seq<Entry>, sid: nat) returns (j: nat)
    requires StoreIn(entries, sid).Some?
    ensures j < |entries| && entries[j].StoreEntry? && entries[j].store.storeId == sid
  {
    if entries[0].StoreEntry? && entries[0].store.storeId == sid {
      j := 0;
    } else {
      j := StoreAtIndex(entries[1..], sid);
      j := j + 1;
    }
  }

  /** Creation syncs every roster, whatever it is created from. */
  lemma CreatedRosters(cat: Catalog, g: Given)
    requires cat.WellFormed()
    ensures RostersAgree(cat, Created(cat, g))
  {
    hide SyncedStores, ShowsRoster, FirstValues;
    var s := Unsynced(cat, g);
    forall sid, l | HasStore(cat, sid) && l in Created(cat, g).vals
      ensures ShowsRoster(cat, Created(cat, g), sid, l)
    {
      var j := StoreAtIndex(cat.entries, sid);
      AllSynced(cat, s, |cat.entries|);
      SyncedAgree(cat, s, |cat.entries|, sid, j, l);
    }
  }

  // ---- trials, connections, sources ------------------------------------------------------------------------

  /** A new hub has no trial, no connection and the latch and items it was given. */
  lemma CreatedIs(cat: Catalog, g: Given)
    requires cat.WellFormed()
    ensures Synced(Unsynced(cat, g), Created(cat, g))
  {
    AllSynced(cat, Unsynced(cat, g), |cat.entries|);
  }

  /** A place that is no roster field reads what was replayed, or its initial value. */
  lemma CreatedReads(cat: Catalog, g: Given, l: Loc)
    requires cat.WellFormed() && cat.HasLoc(l) && !IsRosterField(cat, l)
    ensures l in Created(cat, g).vals && Created(cat, g).vals[l] == FirstValue(cat, g, l)
  {
    hide SyncedStores, FirstValue;
    cat.Placed(l);
    SyncedKeeps(cat, Unsynced(cat, g), |cat.entries|, l);
  }

  /** What a place of a new hub reads: what was replayed, else the initial value as stored, else nothing at all. */
  ghost predicate Begins(cat: Catalog, g: Given, l: Loc, v: Val)
    requires cat.WellFormed() && cat.HasLoc(l)
  {
    cat.Placed(l);
    if l.ch in g.snapshots && l.i < |g.snapshots[l.ch]| then v == g.snapshots[l.ch][l.i]
    else if cat.At(l).init.Some? then v == StoredAt(cat, l, cat.At(l).init.value)
    else if IsStr(cat.At(l).f.kind) then v == Text([])
    else if cat.At(l).f.kind == F32T then v == Single(Quad(0, 0, 0, 0))
    else v == Num(0.0)
  }

  lemma FirstBegins(cat: Catalog, g: Given, l: Loc)
    requires cat.WellFormed() && cat.HasLoc(l)
    ensures Begins(cat, g, l, FirstValue(cat, g, l))
  {
    cat.Placed(l);
    var f := cat.At(l).f;
    var z := PackedWrite.Zeros(TypeSize(f.kind));
    if IsStr(f.kind) {
      PackedWrite.TrimmedUnique(z, []);
    } else if IsInt(f.kind) {
      assert RawInt(f.kind, z) == 0;
    }
  }

  /** Of the first `m` items given, the last under a key. */
  ghost predicate LastFor(kept: seq<Kept>, n: nat, m: nat, k: nat)
    requires m <= |kept|
  {
    && n < m && 256 * kept[n].storeId + kept[n].item.slot == k
    && forall j :: n < j < m ==> 256 * kept[j].storeId + kept[j].item.slot != k
  }

  lemma {:induction false} ItemsGiven(kept: seq<Kept>, m: nat, k: nat)
    requires m <= |kept|
    ensures k in FirstItems(kept, m) <==> exists n :: 0 <= n < m && 256 * kept[n].storeId + kept[n].item.slot == k
    ensures forall n :: 0 <= n < m && LastFor(kept, n, m, k) ==> FirstItems(kept, m)[k] == kept[n].item
  {
    if m > 0 {
      ItemsGiven(kept, m - 1, k);
    }
  }

  /**
   * A new hub shows at every place that is no roster field what was replayed or its initial value, holds of the
   * items given the last for each slot, and has configuration generation 1, no trial and no connection.
   */
  lemma CreatedShows(cat: Catalog, g: Given, l: Loc, n: nat, key: nat)
    requires cat.WellFormed() && cat.HasLoc(l)
    ensures var s := Created(cat, g);
            && s.cfgGen == 1 && s.trials == map[] && s.conns == map[] && s.latch == g.latch
            && (!IsRosterField(cat, l) ==> l in s.vals && Begins(cat, g, l, s.vals[l]))
            && (LastFor(g.items, n, |g.items|, key) ==> key in s.items && s.items[key] == g.items[n].item)
            && forall k :: k in s.items ==> exists m :: 0 <= m < |g.items| && 256 * g.items[m].storeId + g.items[m].item.slot == k
  {
    hide Created, FirstValue, FirstItems, IsRosterField, Begins;
    CreatedIs(cat, g);
    FirstBegins(cat, g, l);
    if !IsRosterField(cat, l) {
      CreatedReads(cat, g, l);
    }
    forall k | k in Created(cat, g).items
      ensures exists m :: 0 <= m < |g.items| && 256 * g.items[m].storeId + g.items[m].item.slot == k
    {
      ItemsGiven(g.items, |g.items|, k);
    }
    ItemsGiven(g.items, |g.items|, key);
  }

  /** No other store than the one at `j` of its id, whose roster is entry `r` and has its generation in field `i`. */
  ghost predicate OneStore(entries: seq<Entry>, j: nat, r: nat, i: nat) {
    && j < |entries| && entries[j].StoreEntry? && FirstRoster(entries, r, entries[j].store.storeId)
    && NamedFirst(entries[r].layout, i, "generation")
    && forall k :: 0 <= k < |entries| && k != j && entries[k].StoreEntry? ==> entries[k].store.storeId != entries[j].store.storeId
  }

  /** Until its own turn a store's roster is left alone. */
  lemma {:induction false} RosterWaits(cat: Catalog, s: State, n: nat, j: nat, r: nat, i: nat)
    requires Fits(cat, s.vals) && n <= j && OneStore(cat.entries, j, r, i)
    ensures var l := Loc(cat.entries[r].id, i); l in s.vals && l in SyncedStores(cat, s, n).vals && SyncedStores(cat, s, n).vals[l] == s.vals[l]
  {
    hide RosterGen, StoredAt;
    RosterPlaced(cat, r, i);
    if n > 0 {
      RosterWaits(cat, s, n - 1, j, r, i);
      if cat.entries[n - 1].StoreEntry? {
        StoreThere(cat.entries, cat.entries[n - 1]);
        FirstRosterIs(cat.entries, r, cat.entries[j].store.storeId);
        RostersDiffer(cat, cat.entries[n - 1].store.storeId, cat.entries[j].store.storeId);
      }
    }
  }

  lemma GenRead(cat: Catalog, vals: map<Loc, Val>, j: nat, r: nat, i: nat)
    requires Fits(cat, vals) && OneStore(cat.entries, j, r, i)
    ensures Loc(cat.entries[r].id, i) in vals
    ensures RosterGen(cat, vals, cat.entries[j].store.storeId) == ToGeneration(vals[Loc(cat.entries[r].id, i)])
  {
    hide ToGeneration;
    RosterPlaced(cat, r, i);
    FirstRosterIs(cat.entries, r, cat.entries[j].store.storeId);
    NamedIs(cat.entries[r].layout, "generation", 0, i);
  }

  lemma {:induction false} GenTaken(cat: Catalog, s: State, n: nat, j: nat, r: nat, i: nat)
    requires Fits(cat, s.vals) && j < n <= |cat.entries| && OneStore(cat.entries, j, r, i)
    ensures Loc(cat.entries[r].id, i) in s.vals
    ensures GenOf(SyncedStores(cat, s, n).gens, cat.entries[j].store.storeId) == ToGeneration(s.vals[Loc(cat.entries[r].id, i)])
    decreases n
  {
    hide SyncRoster, ToGeneration, RosterGen, FirstRoster, NamedFirst, Fits;
    var t, e := SyncedStores(cat, s, n - 1), cat.entries[n - 1];
    if n - 1 == j {
      RosterWaits(cat, s, j, j, r, i);
      GenRead(cat, t.vals, j, r, i);
    } else {
      GenTaken(cat, s, n - 1, j, r, i);
    }
    if e.StoreEntry? {
      StoreThere(cat.entries, e);
      SyncGens(cat, t.(gens := t.gens[e.store.storeId := RosterGen(cat, t.vals, e.store.storeId)]), e.store.storeId,
               StoreIn(cat.entries, e.store.storeId).value.store.capacity);
    }
  }

  lemma SyncGens(cat: Catalog, s: State, sid: nat, capacity: nat)
    requires Fits(cat, s.vals)
    ensures SyncRoster(cat, s, sid, capacity).gens == s.gens
  {
  }

  /** A store begins with the generation its replayed roster shows, modulo 2^16. */
  lemma GenerationReplayed(cat: Catalog, g: Given, j: nat, r: nat, i: nat, m: nat)
    requires cat.WellFormed() && OneStore(cat.entries, j, r, i)
    requires var ch := cat.entries[r].id; ch in g.snapshots && i < |g.snapshots[ch]| && g.snapshots[ch][i] == Num(m as real)
    ensures var gens, sid := Created(cat, g).gens, cat.entries[j].store.storeId; sid in gens && gens[sid] == m % 65536
  {
    hide SyncedStores;
    RosterPlaced(cat, r, i);
    cat.Placed(Loc(cat.entries[r].id, i));
    GenTaken(cat, Unsynced(cat, g), |cat.entries|, j, r, i);
    GensHave(cat, Unsynced(cat, g), |cat.entries|, j);
    assert (m as real).Floor == m;
  }

  lemma {:induction false} GensHave(cat: Catalog, s: State, n: nat, j: nat)
    requires Fits(cat, s.vals) && j < n <= |cat.entries| && cat.entries[j].StoreEntry?
    ensures cat.entries[j].store.storeId in SyncedStores(cat, s, n).gens
    decreases n
  {
    hide SyncRoster, RosterGen;
    var t, e := SyncedStores(cat, s, n - 1), cat.entries[n - 1];
    if j < n - 1 {
      GensHave(cat, s, n - 1, j);
    }
    if e.StoreEntry? {
      StoreThere(cat.entries, e);
      SyncGens(cat, t.(gens := t.gens[e.store.storeId := RosterGen(cat, t.vals, e.store.storeId)]), e.store.storeId,
               StoreIn(cat.entries, e.store.storeId).value.store.capacity);
    }
  }

  lemma ApartReads(cat: Catalog, g: Given, l: Loc)
    requires cat.WellFormed() && cat.Apart() && cat.HasLoc(l)
    requires cat.IsSource(l) || cat.SettingOf(l).Some? || IsMark(cat, l)
    ensures l in Created(cat, g).vals && Created(cat, g).vals[l] == FirstValue(cat, g, l)
  {
    ApartAt(cat, l);
    CreatedReads(cat, g, l);
  }

  /** The source runs before the hub has done anything. */
  predicate RunsAtFirst(cat: Catalog, g: Given, l: Loc)
    requires cat.WellFormed()
  {
    cat.IsSource(l) && Truthy(FirstValue(cat, g, l))
  }

  lemma CreatedRuns(cat: Catalog, g: Given, l: Loc)
    requires cat.WellFormed() && cat.Apart()
    ensures Running(cat, Created(cat, g).vals, l) <==> RunsAtFirst(cat, g, l)
  {
    hide Created, FirstValue;
    if cat.IsSource(l) {
      ApartReads(cat, g, l);
    }
  }

  /** The latch replayed is coherent, and if it is a stop then nothing runs in what was replayed. */
  ghost predicate SafeAtFirst(cat: Catalog, g: Given)
    requires cat.WellFormed()
  {
    LatchOk(g.latch) && (g.latch.estop ==> forall l :: !RunsAtFirst(cat, g, l))
  }

  lemma CreatedSafe(cat: Catalog, g: Given)
    requires cat.WellFormed() && cat.Apart()
    ensures Safe(cat, Created(cat, g)) <==> SafeAtFirst(cat, g)
  {
    hide Created, Running, RunsAtFirst, cat.WellFormed, cat.Apart;
    CreatedIs(cat, g);
    forall l
      ensures Running(cat, Created(cat, g).vals, l) <==> RunsAtFirst(cat, g, l)
    {
      CreatedRuns(cat, g, l);
    }
  }

  ghost predicate OneAtFirst(cat: Catalog, g: Given)
    requires cat.WellFormed()
  {
    forall l, m :: RunsAtFirst(cat, g, l) && RunsAtFirst(cat, g, m) ==> l == m
  }

  lemma CreatedOne(cat: Catalog, g: Given)
    requires cat.WellFormed() && cat.Apart()
    ensures AtMostOne(cat, Created(cat, g).vals) <==> OneAtFirst(cat, g)
  {
    hide Created, Running, RunsAtFirst, cat.WellFormed, cat.Apart;
    forall l
      ensures Running(cat, Created(cat, g).vals, l) <==> RunsAtFirst(cat, g, l)
    {
      CreatedRuns(cat, g, l);
    }
  }

  // ---- settings and marks ------------------------------------------------------------------------------------

  /** Every replayed place of a setting reads what the writer could put back. */
  ghost predicate WritableAtFirst(cat: Catalog, g: Given) {
    forall l :: cat.HasLoc(l) && cat.SettingOf(l).Some? && Replayed(g, l) ==> Holds(cat, l, g.snapshots[l.ch][l.i])
  }

  lemma FreshHolds(cat: Catalog, l: Loc)
    requires cat.WellFormed() && cat.HasLoc(l)
    ensures Holds(cat, l, FreshValue(cat, l))
  {
    cat.Placed(l);
    var f := cat.At(l).f;
    if cat.At(l).init.Some? {
      PackedWrite.StoredRestorable(cat.single, f, cat.At(l).init.value);
    } else {
      PackedWrite.ReadRestorable(f, PackedWrite.Zeros(TypeSize(f.kind)));
    }
  }

  lemma CreatedWritable(cat: Catalog, g: Given)
    requires cat.WellFormed() && cat.Apart()
    ensures Writable(cat, Created(cat, g)) <==> WritableAtFirst(cat, g)
  {
    hide Created, Holds, FreshValue, cat.WellFormed, cat.Apart;
    CreatedIs(cat, g);
    forall l | cat.HasLoc(l) && cat.SettingOf(l).Some?
      ensures l in Created(cat, g).vals
      ensures Created(cat, g).vals[l] == if Replayed(g, l) then g.snapshots[l.ch][l.i] else FreshValue(cat, l)
    {
      ApartReads(cat, g, l);
    }
    forall l | cat.HasLoc(l)
      ensures Holds(cat, l, FreshValue(cat, l))
    {
      FreshHolds(cat, l);
    }
  }

  lemma {:induction false} NoMask(e: Entry, shift: nat, n: nat)
    requires e.StateEntry? && e.setting.Some?
    ensures MaskByte(e, map[], shift, n) == 0
    decreases n
  {
    if n > 0 {
      NoMask(e, shift + 1, n - 1);
    }
  }

  /**
   * Marks agree with the trials of a new hub, which has none, if and only if every mark reads zero:
   * creation never redoes the marks of a replayed snapshot.
   */
  lemma CreatedMarks(cat: Catalog, g: Given)
    requires cat.WellFormed() && cat.Apart()
    ensures MarksAgree(cat, Created(cat, g)) <==> forall l :: IsMark(cat, l) ==> FirstValue(cat, g, l) == Num(0.0)
  {
    hide Created, FirstValue, MaskByte, cat.WellFormed, cat.Apart;
    CreatedIs(cat, g);
    forall l | IsMark(cat, l)
      ensures l in Created(cat, g).vals && Created(cat, g).vals[l] == FirstValue(cat, g, l) && MarkOf(cat, map[], l) == 0
    {
      MarkReads(cat, g, l);
    }
  }

  lemma MarkReads(cat: Catalog, g: Given, l: Loc)
    requires cat.WellFormed() && cat.Apart() && IsMark(cat, l)
    ensures l in Created(cat, g).vals && Created(cat, g).vals[l] == FirstValue(cat, g, l) && MarkOf(cat, map[], l) == 0
  {
    hide Created, FirstValue;
    ApartReads(cat, g, l);
    NoMask(cat.StateAt(l), 8 * MarksBefore(cat.StateAt(l).layout, l.i) % 32, 8);
  }

  /** Marks that are neither replayed nor given an initial value agree. */
  lemma FreshMarks(cat: Catalog, g: Given)
    requires cat.WellFormed() && cat.Apart() && MarksPlain(cat)
    requires forall l :: IsMark(cat, l) ==> !Replayed(g, l) && cat.At(l).init.None?
    ensures MarksAgree(cat, Created(cat, g))
  {
    hide Created, MarksAgree;
    CreatedMarks(cat, g);
    forall l | IsMark(cat, l)
      ensures FirstValue(cat, g, l) == Num(0.0)
    {
      FreshMark(cat, g, l);
    }
  }

  lemma FreshMark(cat: Catalog, g: Given, l: Loc)
    requires cat.WellFormed() && MarksPlain(cat) && IsMark(cat, l) && !Replayed(g, l) && cat.At(l).init.None?
    ensures FirstValue(cat, g, l) == Num(0.0)
  {
    cat.Placed(l);
    assert cat.At(l) == cat.StateAt(l).layout[l.i];
  }

  /** One setting with its mark. */
  function Marked(single: PackedWrite.ToSingle): Catalog {
    Catalog([StateEntry(100, WATCH,
                        [LayoutField(Field("level", U8, 1.0, None), NoRole, Some(1), false, None, None, None),
                         LayoutField(Field("pending", U8, 1.0, None), TrialMark, None, false, None, None, None)],
                        Some(200), None)], false, single)
  }

  /** A snapshot replayed while a trial was on shows a mark that no trial stands for. */
  lemma MarkReplayed(single: PackedWrite.ToSingle, L: Latch)
    requires single(0.0) == NullSingle()
    ensures var cat, g := Marked(single), Given(map[100 := [Num(3.0), Num(1.0)]], L, []);
            cat.WellFormed() && cat.Apart() && !MarksAgree(cat, Created(cat, g))
  {
    var cat, g := Marked(single), Given(map[100 := [Num(3.0), Num(1.0)]], L, []);
    var l := Loc(100, 1);
    assert FindIn(cat.entries, 100) == Some(cat.entries[0]);
    MarkedApart(single);
    CreatedMarks(cat, g);
    assert IsMark(cat, l) && FirstValue(cat, g, l) == Num(1.0);
  }

  lemma MarkedApart(single: PackedWrite.ToSingle)
    requires single(0.0) == NullSingle()
    ensures Marked(single).WellFormed() && Marked(single).Apart()
  {
  }

  // ---- a replayed string that fills its width ---------------------------------------------------------------

  const AT_REST := Latch(false, false, 0, 0, 0, 0, false, false, 0)

  /** The label is replayed as `full`. */
  function Relabelled(full: seq<byte>): Given {
    Given(map[100 := [Text(full)]], AT_REST, [])
  }

  /** A session opens, declares its catalog, tries another label, and closes. */
  function TryLabel(now: seq<byte>): seq<Event> {
    [Open(7, CONTROL), CatalogReady(7), IntentFrame(7, LabelTrial(now)), Close(7)]
  }

  function LabelTrial(now: seq<byte>): Intent {
    Intent(200, Some(1), Some([KV(1, IText(now))]), true)
  }

  lemma LabelCreated(single: PackedWrite.ToSingle, full: seq<byte>)
    ensures var cat := Label(single);
            && cat.WellFormed() && cat.TrialsOn() && FindIn(cat.entries, 200) == Some(cat.entries[1])
            && var s := Created(cat, Relabelled(full));
            s.vals == map[Loc(100, 0) := Text(full)] && s.trials == map[] && s.conns == map[] && s.latch == AT_REST
  {
    hide Created, FirstValue, FirstValues;
    var cat, l := Label(single), Loc(100, 0);
    LabelPlaces(single);
    assert FindIn(cat.entries[1..], 200) == Some(cat.entries[1]);
    assert FindIn(cat.entries[1..], CH_SETTINGS_TRIAL) == FindIn(cat.entries[2..], CH_SETTINGS_TRIAL);
    CreatedIs(cat, Relabelled(full));
    CreatedReads(cat, Relabelled(full), l);
    LabelFirst(single, full);
    assert Created(cat, Relabelled(full)).vals.Keys == {l};
  }

  lemma LabelFirst(single: PackedWrite.ToSingle, full: seq<byte>)
    requires Label(single).WellFormed() && Label(single).HasLoc(Loc(100, 0))
    ensures FirstValue(Label(single), Relabelled(full), Loc(100, 0)) == Text(full)
  {
  }

  /** The session is ready, and nothing has changed. */
  lemma LabelReady(single: PackedWrite.ToSingle, full: seq<byte>) returns (s: State)
    ensures var cat := Label(single);
            && cat.WellFormed()
            && s == Next(cat, Next(cat, Created(cat, Relabelled(full)), Open(7, CONTROL)), CatalogReady(7))
            && s.vals == map[Loc(100, 0) := Text(full)] && s.trials == map[] && s.latch == AT_REST
            && 7 in s.conns && s.conns[7].ready && s.conns[7].roles == CONTROL && s.conns[7].ring == []
  {
    hide Created;
    var cat := Label(single);
    LabelCreated(single, full);
    s := Next(cat, Next(cat, Created(cat, Relabelled(full)), Open(7, CONTROL)), CatalogReady(7));
  }

  lemma LabelGate(single: PackedWrite.ToSingle, c: Conn, now: seq<byte>)
    requires c.ready && c.roles == CONTROL && c.ring == []
    ensures GateOf(Label(single), c, LabelTrial(now)) == Pass(Label(single).entries[1], map[1 := IText(now)])
  {
    hide Created;
    LabelCreated(single, now);
    var e, value := Label(single).entries[1], [KV(1, IText(now))];
    assert FieldByKey(e.schema, 1) == Some(e.schema[0]);
    assert value[1..] == [];
    assert Validated(e, CONTROL, value, map[]) == Good(map[1 := IText(now)]);
  }

  lemma LabelPlan(single: PackedWrite.ToSingle, s: State, now: seq<byte>)
    requires Fits(Label(single), s.vals) && Loc(100, 0) in s.vals && s.trials == map[] && s.latch == AT_REST
    ensures var cat := Label(single);
            OnTrial(cat, LabelTrial(now)) && PlanOf(cat, s, 7, cat.entries[1], map[1 := IText(now)], true) == Writes(false)
  {
    hide Created;
    LabelCreated(single, now);
    LabelPlaces(single);
    assert Loc(100, 0) in Base(Label(single), s.vals, Setting(200, 1));
  }

  /** The trial opens with the full label as its baseline; what is shown leaves room for a zero. */
  lemma LabelOpens(single: PackedWrite.ToSingle, s: State, now: seq<byte>, full: seq<byte>)
    requires single(0.0) == NullSingle() && |full| == 16 && Fits(Label(single), s.vals)
    requires s.vals == map[Loc(100, 0) := Text(full)] && s.trials == map[] && s.latch == AT_REST
    requires 7 in s.conns && s.conns[7].ready && s.conns[7].roles == CONTROL && s.conns[7].ring == []
    ensures var cat, l, t := Label(single), Loc(100, 0), Next(Label(single), s, IntentFrame(7, LabelTrial(now)));
            && Fits(cat, t.vals) && l in t.vals && t.vals[l] != Text(full) && 7 in t.conns
            && t.trials == map[Setting(200, 1) := Trial(7, map[l := Text(full)])]
  {
    hide Next, Machine, GateOf, PlanOf, Created, After, MovedTo;
    var cat, l, kv := Label(single), Loc(100, 0), map[1 := IText(now)];
    var ev := IntentFrame(7, LabelTrial(now));
    var x := Does(7, cat.entries[1], kv, true, Writes(false));
    LabelPlaces(single);
    LabelApart(single);
    LabelGate(single, s.conns[7], now);
    LabelPlan(single, s, now);
    assert EffectOf(cat, s, ev) == x;
    NextMachine(cat, s, ev);
    MachinePlace(cat, s, x, l);
    LabelSettles(single, s, now, full);
    LabelShows(single, s, now, full);
    IntentConns(cat, s, 7, LabelTrial(now));
    NextKeepsConn(cat, s, now);
  }

  lemma NextKeepsConn(cat: Catalog, s: State, now: seq<byte>)
    requires Fits(cat, s.vals) && 7 in s.conns && ConnsMove(cat, s, 7, LabelTrial(now), OnIntent(cat, s, 7, LabelTrial(now)))
    ensures 7 in Next(cat, s, IntentFrame(7, LabelTrial(now))).conns
  {
    hide OnIntent, GateOf;
  }

  lemma LabelShows(single: PackedWrite.ToSingle, s: State, now: seq<byte>, full: seq<byte>)
    requires Fits(Label(single), s.vals) && Loc(100, 0) in s.vals && |full| == 16
    ensures var cat, x := Label(single), Does(7, Label(single).entries[1], map[1 := IText(now)], true, Writes(false));
            After(cat, s.vals, Loc(100, 0), MovedTo(cat, s, x, Loc(100, 0))) != Text(full)
  {
    LabelPlaces(single);
    var cat := Label(single);
    assert StoreAt(cat, 200, map[1 := IText(now)], Loc(100, 0)) == Some(Text(now));
  }

  lemma LabelSettles(single: PackedWrite.ToSingle, s: State, now: seq<byte>, full: seq<byte>)
    requires Fits(Label(single), s.vals) && s.vals == map[Loc(100, 0) := Text(full)] && s.trials == map[]
    requires Label(single).TrialsOn()
    ensures var cat, x := Label(single), Does(7, Label(single).entries[1], map[1 := IText(now)], true, Writes(false));
            Machine(cat, s, x).trials == map[Setting(200, 1) := Trial(7, map[Loc(100, 0) := Text(full)])]
  {
    hide Enact, Masked, MaskChannels;
    var cat, kv := Label(single), map[1 := IText(now)];
    LabelPlaces(single);
    EnactTrials(cat, s, 7, 200, kv, Writes(false));
    assert SettingsNamed(200, kv) == {Setting(200, 1)};
    assert Base(cat, s.vals, Setting(200, 1)) == map[Loc(100, 0) := Text(full)];
    var o := Enact(cat, s, 7, 200, kv, Writes(false));
    MaskedTrials(cat, o.s.(trials := Settled(cat, s.vals, o.s.trials, 7, 200, kv, true)));
  }

  /**
   * A hub is created from a snapshot whose label fills its sixteen bytes; a session tries another label
   * and closes: the label comes back without its last byte.
   */
  lemma FullWidthLost(single: PackedWrite.ToSingle, now: seq<byte>, full: seq<byte>, states: seq<State>)
    requires single(0.0) == NullSingle() && |full| == 16 && full[14] != 0
    requires Trace(Label(single), states, TryLabel(now)) && Label(single).WellFormed() && states[0] == Created(Label(single), Relabelled(full))
    ensures states[0].vals == map[Loc(100, 0) := Text(full)]
    ensures Loc(100, 0) in states[4].vals && states[4].vals[Loc(100, 0)] == Text(full[..15])
  {
    hide Created, Next;
    var cat := Label(single);
    LabelCreated(single, full);
    var s := LabelReady(single, full);
    assert states[1] == Next(cat, states[0], TryLabel(now)[0]) && states[2] == Next(cat, states[1], TryLabel(now)[1]);
    assert states[3] == Next(cat, states[2], TryLabel(now)[2]) && states[4] == Next(cat, states[3], TryLabel(now)[3]);
    LabelOpens(single, s, now, full);
    LabelCloses(single, states[3], full);
  }

  // ---- items ---------------------------------------------------------------------------------------------------

  /** Every item given lies in a slot below 256 and is one its store may hold. */
  ghost predicate KeptOk(cat: Catalog, kept: seq<Kept>) {
    forall i :: 0 <= i < |kept| ==>
      kept[i].item.slot < 256 && (HasStore(cat, kept[i].storeId) ==> ItemOk(DescOf(cat, kept[i].storeId), kept[i].item))
  }

  lemma {:induction false} FirstItemsOk(cat: Catalog, kept: seq<Kept>, n: nat)
    requires KeptOk(cat, kept) && n <= |kept|
    ensures ItemsOk(cat, FirstItems(kept, n)) && ItemsFit(cat, FirstItems(kept, n))
  {
    hide ItemOk;
    if n > 0 {
      FirstItemsOk(cat, kept, n - 1);
      KeyParts(kept[n - 1].storeId, kept[n - 1].item.slot);
      SlotBelow(cat, kept[n - 1]);
    }
  }

  lemma SlotBelow(cat: Catalog, k: Kept)
    requires HasStore(cat, k.storeId) ==> ItemOk(DescOf(cat, k.storeId), k.item)
    ensures HasStore(cat, k.storeId) ==> k.item.slot < DescOf(cat, k.storeId).capacity
  {
  }

  // ---- every run of a hub ----------------------------------------------------------------------------------------

  /** What is asked of a catalog, and of what the hub is created from. */
  ghost predicate GoodStart(cat: Catalog, g: Given) {
    && cat.WellFormed() && cat.Apart() && SlotsFit(cat) && MarksPlain(cat) && OneSourcePerChannel(cat)
    && SafeAtFirst(cat, g) && OneAtFirst(cat, g) && WritableAtFirst(cat, g) && KeptOk(cat, g.items)
    && forall l :: IsMark(cat, l) ==> FirstValue(cat, g, l) == Num(0.0)
  }

  lemma StartSound(cat: Catalog, g: Given)
    requires cat.WellFormed()
    ensures var s := Created(cat, g);
            Sound(cat, s) && AllRingsOk(s) && MaySee(cat, s) && WithinTier(cat, s) && Coherent(s) && NoVerbOnTrial(cat, s)
  {
    hide Created, Fits;
    CreatedIs(cat, g);
  }

  /**
   * In every state of every run of a hub, from its creation on: trials are sound and can be reverted,
   * the latch is coherent and nothing runs under a stop, at most one source runs, marks and rosters
   * agree with what they summarise, items are within their limits, rings and subscriptions are sound, and
   * no session has been shown anything above its tier.
   */
  lemma EveryRun(cat: Catalog, g: Given, states: seq<State>, evs: seq<Event>, k: nat)
    requires GoodStart(cat, g) && Trace(cat, states, evs) && states[0] == Created(cat, g) && k < |states| == |evs| + 1
    ensures Sound(cat, states[k]) && Writable(cat, states[k])
    ensures Safe(cat, states[k]) && AtMostOne(cat, states[k].vals)
    ensures MarksAgree(cat, states[k]) && RostersAgree(cat, states[k])
    ensures ItemsOk(cat, states[k].items) && ItemsFit(cat, states[k].items)
    ensures AllRingsOk(states[k]) && MaySee(cat, states[k]) && WithinTier(cat, states[k]) && NoVerbOnTrial(cat, states[k])
  {
    hide Next, Created, Sound, Writable, Safe, AtMostOne, MarksAgree, RostersAgree, ItemsOk, ItemsFit, AllRingsOk, MaySee, WithinTier,
         SafeAtFirst, OneAtFirst, WritableAtFirst, KeptOk, OneSourcePerChannel, MarksPlain, SlotsFit, FirstValue, IsMark, cat.WellFormed, cat.Apart, Coherent, NoVerbOnTrial;
    StartSound(cat, g);
    CreatedIs(cat, g);
    CreatedSafe(cat, g);
    CreatedOne(cat, g);
    CreatedMarks(cat, g);
    CreatedRosters(cat, g);
    CreatedWritable(cat, g);
    FirstItemsOk(cat, g.items, |g.items|);
    TraceSound(cat, states, evs, k);
    TraceSafe(cat, states, evs, k);
    OneSource(cat, states, evs, k);
    TraceMarks(cat, states, evs, k);
    TraceRosters(cat, states, evs, k);
    TraceItemsOk(cat, states, evs, k);
    TraceItems(cat, states, evs, k);
    TraceRingsOk(cat, states, evs, k);
    TraceWithin(cat, states, evs, k);
    TraceNoVerb(cat, states, evs, k);
    TraceWritable(cat, states, evs, k);
  }
}
