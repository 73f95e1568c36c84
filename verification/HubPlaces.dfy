/** What each operation of the hub writes, place by place. */
module HubPlaces {
  import opened Bytes
  import opened Packed
  import opened HubCatalog
  import opened Hub
  import PackedWrite

  lemma ApartAt(cat: Catalog, l: Loc)
    requires cat.WellFormed() && cat.Apart() && cat.HasLoc(l)
    ensures FieldApart(cat.StateAt(l), cat.At(l))
  {
    cat.Placed(l);
    assert cat.At(l) == cat.StateAt(l).layout[l.i];
  }

  /** A place the roster sync writes is one of the three derived fields of a roster. */
  lemma RosterPlace(cat: Catalog, sid: nat, l: Loc, gen: nat, count: nat, capacity: nat)
    requires cat.WellFormed() && cat.Apart() && cat.HasLoc(l) && RosterIn(cat.entries, sid).Some?
    ensures RosterIn(cat.entries, sid).value.StateEntry?
    ensures RosterValue(RosterIn(cat.entries, sid).value, l, gen, count, capacity).Some? ==>
              !cat.IsSource(l) && cat.SettingOf(l).None?
  {
    RosterIsState(cat.entries, sid);
    var r := RosterIn(cat.entries, sid).value;
    FindsIt(cat.entries, r);
    ApartAt(cat, l);
  }

  /** The roster sync leaves settings and sources alone. */
  lemma SyncKeeps(cat: Catalog, s: State, sid: nat, capacity: nat, l: Loc)
    requires Fits(cat, s.vals) && cat.Apart() && l in s.vals
    requires cat.IsSource(l) || cat.SettingOf(l).Some?
    ensures SyncRoster(cat, s, sid, capacity).vals[l] == s.vals[l]
  {
    if RosterIn(cat.entries, sid).Some? {
      RosterPlace(cat, sid, l, GenOf(s.gens, sid), |KeysOf(s.items, sid)|, capacity);
    }
  }

  lemma MutatedKeeps(cat: Catalog, s: State, items: map<nat, Item>, d: StoreDesc, l: Loc)
    requires Fits(cat, s.vals) && cat.Apart() && l in s.vals
    requires cat.IsSource(l) || cat.SettingOf(l).Some?
    ensures Mutated(cat, s, items, d).vals[l] == s.vals[l]
  {
    SyncKeeps(cat, s.(items := items, gens := s.gens[d.storeId := NextGen(s.gens, d.storeId)]), d.storeId, d.capacity, l);
  }

  /** The trial marks leave settings and sources alone. */
  lemma MaskKeeps(cat: Catalog, s: State, l: Loc)
    requires Fits(cat, s.vals) && cat.Apart() && l in s.vals
    requires cat.IsSource(l) || cat.SettingOf(l).Some?
    ensures Masked(cat, s).vals[l] == s.vals[l]
  {
    ApartAt(cat, l);
  }

  /** Writing nothing to a number leaves nothing there. */
  lemma FalsyStored(cat: Catalog, l: Loc, v: Val)
    requires cat.WellFormed() && cat.Apart() && cat.IsSource(l) && !Truthy(v)
    ensures Known(cat.At(l).f.kind) && !Truthy(StoredAt(cat, l, v))
  {
    cat.Placed(l);
    ApartAt(cat, l);
    var f := cat.At(l).f;
    if IsInt(f.kind) {
      RoundInt(0);
      assert PackedWrite.AsNumber(v) == 0.0 && Scaled(f, 0.0) == 0.0;
      assert Physical(f, 0) == 0.0;
    }
  }

  lemma AnyRunning(cat: Catalog, vals: map<Loc, Val>)
    ensures SourceRunning(cat, vals, None) <==> exists l :: Running(cat, vals, l)
  {
  }

  // ---- a setting or a source, after a carried-out intent ------------------------------------------

  /** What a plan writes at a setting or a source. */
  function PutAt(cat: Catalog, s: State, sid: nat, ch: nat, kv: map<nat, IVal>, plan: Plan, l: Loc): Option<Val> {
    match plan
    case EstopNow => if !s.latch.estop && Running(cat, s.vals, l) then Some(Num(0.0)) else None
    case Writes(_) => StoreAt(cat, ch, kv, l)
    case EndAll(commit) => if commit then None else RevertValue(cat, s, sid, l)
    case _ => None
  }

  /** The value of a place once `w` is written there. */
  function After(cat: Catalog, vals: map<Loc, Val>, l: Loc, w: Option<Val>): Val
    requires Fits(cat, vals) && l in vals
  {
    if w.None? then vals[l] else (cat.Placed(l); StoredAt(cat, l, w.value))
  }

  lemma EndPlace(cat: Catalog, s: State, sid: nat, commit: bool, l: Loc)
    requires Fits(cat, s.vals) && cat.Apart() && l in s.vals
    requires cat.IsSource(l) || cat.SettingOf(l).Some?
    ensures EndTrials(cat, s, sid, commit).s.vals[l]
         == After(cat, s.vals, l, if commit then None else RevertValue(cat, s, sid, l))
  {
    MaskKeeps(cat, Unmasked(cat, s, sid, commit), l);
  }

  lemma EnactPlace(cat: Catalog, s: State, sid: nat, ch: nat, kv: map<nat, IVal>, plan: Plan, l: Loc)
    requires Fits(cat, s.vals) && cat.Apart() && l in s.vals && !plan.Refuse?
    requires cat.IsSource(l) || cat.SettingOf(l).Some?
    ensures Enact(cat, s, sid, ch, kv, plan).s.vals[l] == After(cat, s.vals, l, PutAt(cat, s, sid, ch, kv, plan, l))
  {
    match plan
    case Leaves(items, d) => MutatedKeeps(cat, s, items, d, l);
    case EndAll(commit) => EndPlace(cat, s, sid, commit, l);
    case _ =>
  }

  /** A carried-out intent moves a setting or a source exactly as its plan says. */
  lemma PerformPlace(cat: Catalog, s: State, sid: nat, ch: nat, kv: map<nat, IVal>, trial: bool, plan: Plan, l: Loc)
    requires Fits(cat, s.vals) && cat.Apart() && l in s.vals && !plan.Refuse?
    requires cat.IsSource(l) || cat.SettingOf(l).Some?
    ensures Perform(cat, s, sid, ch, kv, trial, plan).s.vals[l] == After(cat, s.vals, l, PutAt(cat, s, sid, ch, kv, plan, l))
  {
    EnactPlace(cat, s, sid, ch, kv, plan, l);
    var o := Enact(cat, s, sid, ch, kv, plan);
    MaskKeeps(cat, o.s.(trials := Settled(cat, s.vals, o.s.trials, sid, ch, kv, trial)), l);
  }
}
