/** Each store's roster agrees with the items it summarises (clients/js/localhub.js). */
module HubRosters {
  import opened Bytes
  import opened Packed
  import opened HubCatalog
  import opened Hub
  import opened HubPlaces
  import opened HubTrials
  import opened HubSteps
  import opened HubSafety
  import opened HubDerived
  import PackedWrite

  predicate HasStore(cat: Catalog, sid: nat) {
    StoreIn(cat.entries, sid).Some? && StoreIn(cat.entries, sid).value.StoreEntry?
  }

  function DescOf(cat: Catalog, sid: nat): StoreDesc
    requires HasStore(cat, sid)
  {
    StoreIn(cat.entries, sid).value.store
  }

  /** Item keys are `store * 256 + slot`, so a store has at most 256 slots. */
  ghost predicate SlotsFit(cat: Catalog) {
    forall sid :: HasStore(cat, sid) ==> DescOf(cat, sid).capacity <= 256
  }

  /** The place shows what the roster sync would write there, if it would. */
  ghost predicate ShowsRoster(cat: Catalog, s: State, sid: nat, l: Loc)
    requires Fits(cat, s.vals) && HasStore(cat, sid) && l in s.vals
  {
    RosterIn(cat.entries, sid).Some? ==>
      RosterIsRoster(cat, sid) &&
      var w := RosterValue(RosterIn(cat.entries, sid).value, l, GenOf(s.gens, sid), |KeysOf(s.items, sid)|, DescOf(cat, sid).capacity);
      w.Some? ==> s.vals[l] == After(cat, s.vals, l, w)
  }

  predicate RosterIsRoster(cat: Catalog, sid: nat) {
    RosterIn(cat.entries, sid).Some? && RosterIn(cat.entries, sid).value.StateEntry?
  }

  ghost predicate RostersAgree(cat: Catalog, s: State)
    requires Fits(cat, s.vals)
  {
    forall sid, l :: HasStore(cat, sid) && l in s.vals ==> ShowsRoster(cat, s, sid, l)
  }

  // ---- what a store operation leaves ------------------------------------------------------------

  /** The items differ from before at one slot of the store, within its capacity. */
  ghost predicate OneSlot(cat: Catalog, before: map<nat, Item>, after: map<nat, Item>, d: StoreDesc) {
    && HasStore(cat, d.storeId) && DescOf(cat, d.storeId) == d
    && exists slot :: 0 <= slot < d.capacity && SameBut(before, after, ItemKey(d.storeId, slot))
  }

  ghost predicate SameBut(before: map<nat, Item>, after: map<nat, Item>, key: nat) {
    forall k :: k != key ==> (k in before <==> k in after) && (k in before ==> before[k] == after[k])
  }

  lemma SlotLeaves(cat: Catalog, items: map<nat, Item>, d: StoreDesc, slot: nat, e: Entry, kv: map<nat, IVal>)
    requires e.IntentEntry?
    ensures var plan := PlanSlot(items, d, slot, e, kv);
            plan.Leaves? ==> plan.d == d && SameBut(items, plan.items, ItemKey(d.storeId, slot))
  {
    hide SlotOp, SavedPayload, Bound, Get, FirstAct;
  }

  lemma StoreLeaves(cat: Catalog, items: map<nat, Item>, e: Entry, kv: map<nat, IVal>)
    requires e.IntentEntry?
    ensures var plan := PlanStore(cat, items, e, kv); plan.Leaves? ==> OneSlot(cat, items, plan.items, plan.d)
  {
    hide PlanSlot, Bound, SameBut;
    if e.storeId.Some? {
      StoreIsStore(cat.entries, e.storeId.value);
      var st := StoreIn(cat.entries, e.storeId.value);
      var slot := Get(kv, Bound(e.schema, StoreSlot, UIntT));
      if st.Some? && slot.Some? && SlotFits(slot.value, st.value.store.capacity) {
        SlotLeaves(cat, items, st.value.store, slot.value.r.Floor, e, kv);
      }
    }
  }

  lemma PlanLeaves(cat: Catalog, s: State, sid: nat, e: Entry, kv: map<nat, IVal>, trial: bool)
    requires e.IntentEntry?
    ensures var plan := PlanOf(cat, s, sid, e, kv, trial); plan.Leaves? ==> OneSlot(cat, s.items, plan.items, plan.d)
  {
    hide TrialRefusal, WriteRefusal, PlanStore, OneSlot, Has;
    StoreLeaves(cat, s.items, e, kv);
  }

  /** Keys of different stores never meet while slots stay below 256. */
  lemma KeyParts(sid: nat, slot: nat)
    requires slot < 256
    ensures ItemKey(sid, slot) / 256 == sid && ItemKey(sid, slot) % 256 == slot
  {
  }

  lemma OtherStoreKeeps(cat: Catalog, before: map<nat, Item>, after: map<nat, Item>, d: StoreDesc, sid: nat)
    requires SlotsFit(cat) && OneSlot(cat, before, after, d) && sid != d.storeId
    ensures KeysOf(after, sid) == KeysOf(before, sid)
  {
    var slot :| 0 <= slot < d.capacity && SameBut(before, after, ItemKey(d.storeId, slot));
    KeyParts(d.storeId, slot);
  }

  // ---- the roster of a store ----------------------------------------------------------------------

  lemma MutatedShows(cat: Catalog, s: State, items: map<nat, Item>, d: StoreDesc, l: Loc)
    requires Fits(cat, s.vals) && l in s.vals && HasStore(cat, d.storeId) && DescOf(cat, d.storeId) == d
    ensures ShowsRoster(cat, Mutated(cat, s, items, d), d.storeId, l)
  {
    if RosterIn(cat.entries, d.storeId).Some? {
      RosterIsState(cat.entries, d.storeId);
    }
  }

  /** The roster of another store is another entry. */
  lemma OtherRoster(cat: Catalog, s: State, items: map<nat, Item>, d: StoreDesc, sid: nat, l: Loc)
    requires Fits(cat, s.vals) && l in s.vals && SlotsFit(cat) && OneSlot(cat, s.items, items, d)
    requires HasStore(cat, sid) && sid != d.storeId && ShowsRoster(cat, s, sid, l)
    ensures ShowsRoster(cat, Mutated(cat, s, items, d), sid, l)
  {
    OtherStoreKeeps(cat, s.items, items, d, sid);
    RostersDiffer(cat, d.storeId, sid);
  }

  lemma RostersDiffer(cat: Catalog, a: nat, b: nat)
    requires cat.WellFormed() && a != b
    ensures RosterIn(cat.entries, a).Some? && RosterIn(cat.entries, b).Some? ==>
              RosterIn(cat.entries, a).value.id != RosterIn(cat.entries, b).value.id
  {
    RosterIsState(cat.entries, a);
    RosterIsState(cat.entries, b);
    if RosterIn(cat.entries, a).Some? && RosterIn(cat.entries, b).Some? {
      FindsIt(cat.entries, RosterIn(cat.entries, a).value);
      FindsIt(cat.entries, RosterIn(cat.entries, b).value);
    }
  }

  /** Places the roster sync writes are roster fields. */
  lemma RosterFieldIs(cat: Catalog, sid: nat, l: Loc, gen: nat, count: nat, capacity: nat)
    requires cat.WellFormed() && cat.HasLoc(l) && RosterIsRoster(cat, sid)
    ensures RosterValue(RosterIn(cat.entries, sid).value, l, gen, count, capacity).Some? ==> IsRosterField(cat, l)
  {
    RosterIsState(cat.entries, sid);
    FindsIt(cat.entries, RosterIn(cat.entries, sid).value);
  }

  /** A state that keeps items, generations and roster fields keeps the rosters. */
  lemma KeepsRosters(cat: Catalog, s: State, t: State)
    requires Fits(cat, s.vals) && Fits(cat, t.vals) && RostersAgree(cat, s) && t.items == s.items && t.gens == s.gens
    requires forall l :: l in s.vals && IsRosterField(cat, l) ==> t.vals[l] == s.vals[l]
    ensures RostersAgree(cat, t)
  {
    hide IsRosterField, RosterValue;
    forall sid, l | HasStore(cat, sid) && l in t.vals
      ensures ShowsRoster(cat, t, sid, l)
    {
      cat.Placed(l);
      assert ShowsRoster(cat, s, sid, l);
      if RosterIn(cat.entries, sid).Some? {
        RosterFieldIs(cat, sid, l, GenOf(s.gens, sid), |KeysOf(s.items, sid)|, DescOf(cat, sid).capacity);
      }
    }
  }

  lemma MaskRosters(cat: Catalog, s: State)
    requires Fits(cat, s.vals) && cat.Apart() && RostersAgree(cat, s)
    ensures RostersAgree(cat, Masked(cat, s))
  {
    hide RostersAgree;
    forall l | l in s.vals && IsRosterField(cat, l)
      ensures Masked(cat, s).vals[l] == s.vals[l]
    {
      RosterNotMark(cat, l);
    }
    KeepsRosters(cat, s, Masked(cat, s));
  }

  lemma EndRosters(cat: Catalog, s: State, sid: nat, commit: bool)
    requires Fits(cat, s.vals) && cat.Apart() && RostersAgree(cat, s)
    ensures RostersAgree(cat, EndTrials(cat, s, sid, commit).s)
  {
    hide RostersAgree, Masked, IsRosterField, MaskChannels, RevertChannels;
    var u := Unmasked(cat, s, sid, commit);
    forall l | l in s.vals && IsRosterField(cat, l)
      ensures u.vals[l] == s.vals[l]
    {
      UnmaskedKept(cat, s, sid, commit, l);
    }
    KeepsRosters(cat, s, u);
    MaskRosters(cat, u);
  }

  lemma MutatedRosters(cat: Catalog, s: State, items: map<nat, Item>, d: StoreDesc)
    requires Fits(cat, s.vals) && SlotsFit(cat) && OneSlot(cat, s.items, items, d) && RostersAgree(cat, s)
    ensures RostersAgree(cat, Mutated(cat, s, items, d))
  {
    hide Mutated, ShowsRoster, OneSlot;
    assert HasStore(cat, d.storeId) && DescOf(cat, d.storeId) == d by { SlotStore(cat, s.items, items, d); }
    var t := Mutated(cat, s, items, d);
    forall sid, l | HasStore(cat, sid) && l in t.vals
      ensures ShowsRoster(cat, t, sid, l)
    {
      if sid == d.storeId {
        MutatedShows(cat, s, items, d, l);
      } else {
        OtherRoster(cat, s, items, d, sid, l);
      }
    }
  }

  lemma SlotStore(cat: Catalog, before: map<nat, Item>, after: map<nat, Item>, d: StoreDesc)
    requires OneSlot(cat, before, after, d)
    ensures HasStore(cat, d.storeId) && DescOf(cat, d.storeId) == d
  {
  }

  /** Items and generations move with store operations alone. */
  lemma EnactItems(cat: Catalog, s: State, sid: nat, ch: nat, kv: map<nat, IVal>, plan: Plan)
    requires Fits(cat, s.vals) && !plan.Refuse?
    ensures var t := Enact(cat, s, sid, ch, kv, plan).s;
            if plan.Leaves? then
              t.items == plan.items && t.gens == s.gens[plan.d.storeId := NextGen(s.gens, plan.d.storeId)]
            else t.items == s.items && t.gens == s.gens
  {
    hide EndTrials, LatchEstop, Fits, Applied, WriteChannels, StoreAt, RosterChannels;
    match plan
    case EstopNow => EstopItems(cat, s);
    case EndAll(commit) => EndItems(cat, s, sid, commit);
    case _ =>
  }

  lemma EstopItems(cat: Catalog, s: State)
    requires Fits(cat, s.vals)
    ensures var t := LatchEstop(cat, s); t.items == s.items && t.gens == s.gens
  {
    hide Fits;
  }

  lemma EndItems(cat: Catalog, s: State, sid: nat, commit: bool)
    requires Fits(cat, s.vals)
    ensures var t := EndTrials(cat, s, sid, commit).s; t.items == s.items && t.gens == s.gens
  {
    hide Fits;
  }

  lemma EnactRosters(cat: Catalog, s: State, sid: nat, ch: nat, kv: map<nat, IVal>, plan: Plan)
    requires Fits(cat, s.vals) && cat.Apart() && SlotsFit(cat) && RostersAgree(cat, s) && !plan.Refuse?
    requires plan.Leaves? ==> OneSlot(cat, s.items, plan.items, plan.d)
    ensures RostersAgree(cat, Enact(cat, s, sid, ch, kv, plan).s)
  {
    hide RostersAgree, EndTrials, Mutated, LatchEstop, Written, IsRosterField, OneSlot, SlotsFit,
         Applied, WriteChannels, RosterChannels;
    if plan.Leaves? {
      MutatedRosters(cat, s, plan.items, plan.d);
    } else if plan.EndAll? {
      EndRosters(cat, s, sid, plan.commit);
    } else {
      EnactItems(cat, s, sid, ch, kv, plan);
      forall l | l in s.vals && IsRosterField(cat, l)
        ensures Enact(cat, s, sid, ch, kv, plan).s.vals[l] == s.vals[l]
      {
        DerivedKept(cat, s, sid, ch, kv, plan, l);
      }
      KeepsRosters(cat, s, Enact(cat, s, sid, ch, kv, plan).s);
    }
  }

  lemma PerformRosters(cat: Catalog, s: State, sid: nat, ch: nat, kv: map<nat, IVal>, trial: bool, plan: Plan)
    requires Fits(cat, s.vals) && cat.Apart() && SlotsFit(cat) && RostersAgree(cat, s) && !plan.Refuse?
    requires plan.Leaves? ==> OneSlot(cat, s.items, plan.items, plan.d)
    ensures RostersAgree(cat, Perform(cat, s, sid, ch, kv, trial, plan).s)
  {
    hide RostersAgree, Enact, Masked, Settled, OneSlot, SlotsFit, IsRosterField;
    EnactRosters(cat, s, sid, ch, kv, plan);
    var o := Enact(cat, s, sid, ch, kv, plan);
    var t := o.s.(trials := Settled(cat, s.vals, o.s.trials, sid, ch, kv, trial));
    KeepsRosters(cat, o.s, t);
    MaskRosters(cat, t);
  }

  lemma EstopRosters(cat: Catalog, s: State)
    requires Fits(cat, s.vals) && cat.Apart() && RostersAgree(cat, s)
    ensures RostersAgree(cat, LatchEstop(cat, s))
  {
    hide RostersAgree, LatchEstop;
    EstopItems(cat, s);
    forall l | l in s.vals && IsRosterField(cat, l)
      ensures LatchEstop(cat, s).vals[l] == s.vals[l]
    {
      ApartAt(cat, l);
      EstopKeepsOthers(cat, s, l);
    }
    KeepsRosters(cat, s, LatchEstop(cat, s));
  }

  /** Every event keeps every roster in step with its store. */
  lemma NextRosters(cat: Catalog, s: State, ev: Event)
    requires Fits(cat, s.vals) && cat.Apart() && SlotsFit(cat) && RostersAgree(cat, s)
    ensures RostersAgree(cat, Next(cat, s, ev))
  {
    hide Next, EffectOf, Perform, EndTrials, LatchEstop, RostersAgree, SlotsFit, OneSlot, PlanOf, Admitted;
    var x := EffectOf(cat, s, ev);
    NextMachine(cat, s, ev);
    EffectDecided(cat, s, ev);
    var m := Machine(cat, s, x);
    match x {
      case Does(sid, e, kv, trial, plan) =>
        PlanLeaves(cat, s, sid, e, kv, trial);
        PerformRosters(cat, s, sid, e.id, kv, trial, plan);
      case Closes(sid) =>
        KeepsRosters(cat, s, Without(s, sid));
        EndRosters(cat, Without(s, sid), sid, false);
      case Estops => EstopRosters(cat, s);
      case Quiet =>
    }
    KeepsRosters(cat, m, Next(cat, s, ev));
  }

  lemma {:induction false} TraceRosters(cat: Catalog, states: seq<State>, evs: seq<Event>, k: nat)
    requires Trace(cat, states, evs) && cat.Apart() && SlotsFit(cat) && k < |states|
    requires Fits(cat, states[0].vals) && RostersAgree(cat, states[0])
    ensures Fits(cat, states[k].vals) && RostersAgree(cat, states[k])
  {
    hide Next, RostersAgree, SlotsFit;
    if k > 0 {
      TraceRosters(cat, states, evs, k - 1);
      NextRosters(cat, states[k - 1], evs[k - 1]);
    }
  }

  // ---- slots -----------------------------------------------------------------------------------------

  /** Every item of a known store lies within its capacity. */
  ghost predicate ItemsFit(cat: Catalog, items: map<nat, Item>) {
    forall k :: k in items && HasStore(cat, k / 256) ==> k % 256 < DescOf(cat, k / 256).capacity
  }

  /** How many of a store's first `n` slots hold an item. */
  function Occupied(items: map<nat, Item>, sid: nat, n: nat): (c: nat)
    ensures c <= n
  {
    if n == 0 then 0 else Occupied(items, sid, n - 1) + (if ItemKey(sid, n - 1) in items then 1 else 0)
  }

  function KeysBelow(items: map<nat, Item>, sid: nat, n: nat): set<nat> {
    set k | k in items && ItemKey(sid, 0) <= k < ItemKey(sid, n)
  }

  lemma {:induction false} CountBelow(items: map<nat, Item>, sid: nat, n: nat)
    ensures |KeysBelow(items, sid, n)| == Occupied(items, sid, n)
  {
    if n == 0 {
      assert KeysBelow(items, sid, 0) == {};
    } else {
      CountBelow(items, sid, n - 1);
      var last := ItemKey(sid, n - 1);
      assert KeysBelow(items, sid, n) == KeysBelow(items, sid, n - 1) + (if last in items then {last} else {});
    }
  }

  /** The keys of a store are its occupied slots, and there are at most as many as it has room for. */
  lemma CountIsOccupied(cat: Catalog, items: map<nat, Item>, sid: nat)
    requires HasStore(cat, sid) && SlotsFit(cat) && ItemsFit(cat, items)
    ensures |KeysOf(items, sid)| == Occupied(items, sid, DescOf(cat, sid).capacity) <= DescOf(cat, sid).capacity
  {
    var n := DescOf(cat, sid).capacity;
    CountBelow(items, sid, n);
    forall k
      ensures k in KeysOf(items, sid) <==> k in KeysBelow(items, sid, n)
    {
      if k in items {
        assert k == 256 * (k / 256) + k % 256;
      }
    }
    assert KeysOf(items, sid) == KeysBelow(items, sid, n);
  }

  lemma SlotKeepsFit(cat: Catalog, before: map<nat, Item>, after: map<nat, Item>, d: StoreDesc)
    requires SlotsFit(cat) && ItemsFit(cat, before) && OneSlot(cat, before, after, d)
    ensures ItemsFit(cat, after)
  {
    var slot :| 0 <= slot < d.capacity && SameBut(before, after, ItemKey(d.storeId, slot));
    KeyParts(d.storeId, slot);
  }

  lemma NextItems(cat: Catalog, s: State, ev: Event)
    requires Fits(cat, s.vals)
    ensures var t, x := Next(cat, s, ev), EffectOf(cat, s, ev);
            if x.Does? && x.plan.Leaves? then
              && OneSlot(cat, s.items, t.items, x.plan.d)
              && t.gens == s.gens[x.plan.d.storeId := NextGen(s.gens, x.plan.d.storeId)]
            else t.items == s.items && t.gens == s.gens
  {
    hide Next, EffectOf, Enact, EndTrials, LatchEstop, OneSlot, PlanOf, Admitted, Settled, Masked;
    var x := EffectOf(cat, s, ev);
    NextMachine(cat, s, ev);
    EffectDecided(cat, s, ev);
    match x
    case Does(sid, e, kv, trial, plan) =>
      PlanLeaves(cat, s, sid, e, kv, trial);
      PerformItems(cat, s, sid, e.id, kv, trial, plan);
    case Closes(sid) => EndItems(cat, Without(s, sid), sid, false);
    case Estops => EstopItems(cat, s);
    case Quiet =>
  }

  lemma PerformItems(cat: Catalog, s: State, sid: nat, ch: nat, kv: map<nat, IVal>, trial: bool, plan: Plan)
    requires Fits(cat, s.vals) && !plan.Refuse?
    ensures var t := Perform(cat, s, sid, ch, kv, trial, plan).s;
            if plan.Leaves? then
              t.items == plan.items && t.gens == s.gens[plan.d.storeId := NextGen(s.gens, plan.d.storeId)]
            else t.items == s.items && t.gens == s.gens
  {
    hide Enact, Fits, Settled;
    EnactItems(cat, s, sid, ch, kv, plan);
  }

  lemma {:induction false} TraceItems(cat: Catalog, states: seq<State>, evs: seq<Event>, k: nat)
    requires Trace(cat, states, evs) && SlotsFit(cat) && ItemsFit(cat, states[0].items) && k < |states|
    ensures ItemsFit(cat, states[k].items)
  {
    hide Next, SlotsFit, ItemsFit, OneSlot, EffectOf;
    if k > 0 {
      TraceItems(cat, states, evs, k - 1);
      NextItems(cat, states[k - 1], evs[k - 1]);
      var x := EffectOf(cat, states[k - 1], evs[k - 1]);
      if x.Does? && x.plan.Leaves? {
        SlotKeepsFit(cat, states[k - 1].items, states[k].items, x.plan.d);
      }
    }
  }

  /**
   * In every state of a run the count field of a store's roster shows how many of its slots are
   * occupied, and that is at most its capacity.
   */
  lemma RosterCounts(cat: Catalog, states: seq<State>, evs: seq<Event>, k: nat, sid: nat, l: Loc)
    requires Trace(cat, states, evs) && cat.Apart() && SlotsFit(cat) && k < |states|
    requires Fits(cat, states[0].vals) && RostersAgree(cat, states[0]) && ItemsFit(cat, states[0].items)
    requires HasStore(cat, sid) && RosterIsRoster(cat, sid) && l in states[k].vals
    requires l.ch == RosterIn(cat.entries, sid).value.id
    requires FieldNamed(RosterIn(cat.entries, sid).value.layout, "count", 0) == Some(l.i)
    ensures var n := Occupied(states[k].items, sid, DescOf(cat, sid).capacity);
            && Fits(cat, states[k].vals) && n <= DescOf(cat, sid).capacity
            && states[k].vals[l] == After(cat, states[k].vals, l, Some(Num(n as real)))
    ensures cat.HasLoc(l)
    ensures var f, n := cat.At(l).f, Occupied(states[k].items, sid, DescOf(cat, sid).capacity);
            && Known(f.kind)
            && (states[k].vals[l] == Num(n as real) <==> PackedWrite.Restorable(f, Num(n as real)))
            && (CountsTo(f, DescOf(cat, sid).capacity) ==> states[k].vals[l] == Num(n as real))
  {
    hide Trace, SlotsFit, ItemsFit, After, KeysOf, Occupied;
    cat.Placed(l);
    TraceRosters(cat, states, evs, k);
    TraceItems(cat, states, evs, k);
    CountIsOccupied(cat, states[k].items, sid);
    assert ShowsRoster(cat, states[k], sid, l);
    PlainNumber(cat, states[k].vals, l, Occupied(states[k].items, sid, DescOf(cat, sid).capacity), DescOf(cat, sid).capacity);
  }

  /** An unscaled integer field that can hold every number up to `n`. */
  predicate CountsTo(f: Field, n: nat) {
    IsInt(f.kind) && Scale(f) == 1.0 && n <= Highest(f.kind)
  }

  lemma PlainNumber(cat: Catalog, vals: map<Loc, Val>, l: Loc, n: nat, most: nat)
    requires Fits(cat, vals) && l in vals && n <= most
    ensures cat.HasLoc(l) && Known(cat.At(l).f.kind)
    ensures After(cat, vals, l, Some(Num(n as real))) == Num(n as real) <==> PackedWrite.Restorable(cat.At(l).f, Num(n as real))
    ensures CountsTo(cat.At(l).f, most) ==> PackedWrite.Restorable(cat.At(l).f, Num(n as real))
  {
    cat.Placed(l);
    var f := cat.At(l).f;
    PackedWrite.RestoreExact(cat.single, f, Num(n as real));
    if CountsTo(f, most) {
      PackedWrite.IntRestorable(f, n);
      assert Physical(f, n) == n as real;
    }
  }

  /** The first field of a layout with this name. */
  predicate NamedFirst(layout: seq<LayoutField>, i: nat, name: string) {
    i < |layout| && layout[i].f.name == name && forall j :: 0 <= j < i ==> layout[j].f.name != name
  }

  lemma {:induction false} NamedIs(layout: seq<LayoutField>, name: string, from: nat, i: nat)
    requires from <= i < |layout| && NamedFirst(layout, i, name)
    ensures FieldNamed(layout, name, from) == Some(i)
    decreases i - from
  {
    if from < i {
      NamedIs(layout, name, from + 1, i);
    }
  }

  /** The roster of a store: the first STATE entry of the catalog that names it. */
  ghost predicate FirstRoster(entries: seq<Entry>, n: nat, sid: nat) {
    && n < |entries| && entries[n].StateEntry? && entries[n].storeId == Some(sid)
    && forall j :: 0 <= j < n ==> !(entries[j].StateEntry? && entries[j].storeId == Some(sid))
  }

  lemma {:induction false} FirstRosterIs(entries: seq<Entry>, n: nat, sid: nat)
    requires FirstRoster(entries, n, sid)
    ensures RosterIn(entries, sid) == Some(entries[n])
    decreases n
  {
    if n > 0 {
      assert forall j :: 0 < j < |entries| ==> entries[j] == entries[1..][j - 1];
      FirstRosterIs(entries[1..], n - 1, sid);
    }
  }

  /**
   * In every state of a run a store's roster shows, as its fields store them, the generation of the store,
   * the number of its item keys and its capacity.
   */
  lemma RosterShows(cat: Catalog, states: seq<State>, evs: seq<Event>, k: nat, sid: nat, n: nat, i: nat)
    requires Trace(cat, states, evs) && cat.Apart() && SlotsFit(cat) && k < |states|
    requires Fits(cat, states[0].vals) && RostersAgree(cat, states[0])
    requires HasStore(cat, sid) && FirstRoster(cat.entries, n, sid) && i < |cat.entries[n].layout|
    ensures Fits(cat, states[k].vals) && Loc(cat.entries[n].id, i) in states[k].vals
    ensures cat.HasLoc(Loc(cat.entries[n].id, i)) && Known(cat.At(Loc(cat.entries[n].id, i)).f.kind)
    ensures var s, l, layout := states[k], Loc(cat.entries[n].id, i), cat.entries[n].layout;
            && (NamedFirst(layout, i, "generation") ==>
                 s.vals[l] == StoredAt(cat, l, Num((if sid in s.gens then s.gens[sid] else 0) as real)))
            && (NamedFirst(layout, i, "count") ==> s.vals[l] == StoredAt(cat, l, Num(|KeysOf(s.items, sid)| as real)))
            && (NamedFirst(layout, i, "capacity") ==> s.vals[l] == StoredAt(cat, l, Num(DescOf(cat, sid).capacity as real)))
  {
    hide Trace, SlotsFit, KeysOf, StoredAt, Next;
    var s, l, layout := states[k], Loc(cat.entries[n].id, i), cat.entries[n].layout;
    TraceRosters(cat, states, evs, k);
    FirstRosterIs(cat.entries, n, sid);
    RosterPlaced(cat, n, i);
    cat.Placed(l);
    assert ShowsRoster(cat, s, sid, l);
    if NamedFirst(layout, i, "generation") {
      NamedIs(layout, "generation", 0, i);
    }
    if NamedFirst(layout, i, "count") {
      NamedIs(layout, "count", 0, i);
    }
    if NamedFirst(layout, i, "capacity") {
      NamedIs(layout, "capacity", 0, i);
    }
    OneName(layout, i);
  }

  lemma RosterPlaced(cat: Catalog, n: nat, i: nat)
    requires cat.WellFormed() && n < |cat.entries| && cat.entries[n].StateEntry? && i < |cat.entries[n].layout|
    ensures Loc(cat.entries[n].id, i) in cat.Locs()
  {
    assert cat.entries[n] in cat.entries;
  }

  /** A field has one name. */
  lemma OneName(layout: seq<LayoutField>, i: nat)
    requires i < |layout|
    ensures layout[i].f.name == "count" ==> FieldNamed(layout, "capacity", 0) != Some(i)
    ensures layout[i].f.name == "generation" ==> FieldNamed(layout, "capacity", 0) != Some(i) && FieldNamed(layout, "count", 0) != Some(i)
  {
  }

  /** The store operations carried out on a store in the first `n` steps. */
  function Mutations(cat: Catalog, states: seq<State>, evs: seq<Event>, sid: nat, n: nat): nat
    requires n <= |evs| && |states| == |evs| + 1
  {
    if n == 0 then 0
    else
      var x := EffectOf(cat, states[n - 1], evs[n - 1]);
      Mutations(cat, states, evs, sid, n - 1) + (if x.Does? && x.plan.Leaves? && x.plan.d.storeId == sid then 1 else 0)
  }

  /** A store's generation moves by one for each operation that changes its items, modulo 2^16. */
  lemma {:induction false} GenerationCounts(cat: Catalog, states: seq<State>, evs: seq<Event>, sid: nat, n: nat)
    requires Trace(cat, states, evs) && n <= |evs| && |states| == |evs| + 1
    ensures GenOf(states[n].gens, sid) == (GenOf(states[0].gens, sid) + Mutations(cat, states, evs, sid, n)) % 0x1_0000
  {
    hide Next, EffectOf, OneSlot;
    if n > 0 {
      GenerationCounts(cat, states, evs, sid, n - 1);
      NextItems(cat, states[n - 1], evs[n - 1]);
      assert states[n] == Next(cat, states[n - 1], evs[n - 1]);
    }
  }
}
