/** What store operations do to the items, and what every item keeps (clients/js/localhub.js). */
module HubStores {
  import opened Bytes
  import opened Packed
  import opened HubCatalog
  import opened Hub
  import opened HubTrials
  import opened HubSteps
  import opened HubSafety
  import opened HubRosters

  /** An item that its store may hold. */
  predicate ItemOk(d: StoreDesc, item: Item) {
    WithinLimit(d.nameMax, |item.name|) && WithinLimit(d.perItemMax, |item.payload|) && item.kind == d.kind
    && item.slot < d.capacity
  }

  /** The slot, the operation, the name and the payload an intent gives. */
  function SlotSaid(e: Entry, kv: map<nat, IVal>): Option<IVal>
    requires e.IntentEntry?
  {
    Get(kv, Bound(e.schema, StoreSlot, UIntT))
  }

  function OpSaid(e: Entry, kv: map<nat, IVal>): Option<IVal>
    requires e.IntentEntry?
  {
    Get(kv, FirstAct(e.schema, StoreAct))
  }

  function NameSaid(e: Entry, kv: map<nat, IVal>): Option<IVal>
    requires e.IntentEntry?
  {
    Get(kv, Bound(e.schema, StoreName, TStr))
  }

  function PayloadSaid(e: Entry, kv: map<nat, IVal>): Option<seq<byte>>
    requires e.IntentEntry?
  {
    SavedPayload(Bound(e.schema, StoreItem, BStr), Get(kv, Bound(e.schema, StoreItem, BStr)))
  }

  /** The item key an intent names, if it names a store and one of its slots. */
  function KeySaid(cat: Catalog, e: Entry, kv: map<nat, IVal>): Option<nat>
    requires e.IntentEntry?
  {
    if e.storeId.Some? && HasStore(cat, e.storeId.value) && SlotSaid(e, kv).Some?
       && SlotFits(SlotSaid(e, kv).value, DescOf(cat, e.storeId.value).capacity)
    then Some(ItemKey(e.storeId.value, SlotSaid(e, kv).value.r.Floor)) else None
  }

  /**
   * An accepted save leaves exactly the payload and the name it was sent, in an item its store may
   * hold; a delete leaves the slot empty; a rename needs an item and keeps its payload; a load needs
   * an item and changes nothing; no other slot is touched.
   */
  lemma StoreEffect(cat: Catalog, items: map<nat, Item>, e: Entry, kv: map<nat, IVal>)
    requires e.IntentEntry? && !PlanStore(cat, items, e, kv).Refuse?
    ensures KeySaid(cat, e, kv).Some?
    ensures var plan, d, op, k := PlanStore(cat, items, e, kv), DescOf(cat, e.storeId.value), OpSaid(e, kv), KeySaid(cat, e, kv).value;
            var after := if plan.Leaves? then plan.items else items;
            && SameBut(items, after, k)
            && (op == Some(INum(STORE_SAVE)) ==>
                 && k in after && ItemOk(d, after[k]) && Some(after[k].payload) == PayloadSaid(e, kv)
                 && (NameSaid(e, kv).Some? && NameSaid(e, kv).value.IText? ==> after[k].name == NameSaid(e, kv).value.b))
            && (op == Some(INum(STORE_DELETE)) ==> k !in after)
            && (op == Some(INum(STORE_RENAME)) ==>
                 && k in items && k in after && after[k].payload == items[k].payload
                 && WithinLimit(d.nameMax, |after[k].name|) && after[k].kind == d.kind)
            && (op == Some(INum(STORE_LOAD)) ==> plan == Keep && k in items)
            && (plan.Leaves? <==> op != Some(INum(STORE_LOAD)))
            && (plan.Leaves? ==> plan.d == d)
  {
    hide Bound, FirstAct, SavedPayload, Get;
    StoreIsStore(cat.entries, e.storeId.value);
  }

  /** Every item of a known store is one it may hold. */
  ghost predicate ItemsOk(cat: Catalog, items: map<nat, Item>) {
    forall k :: k in items && HasStore(cat, k / 256) ==> ItemOk(DescOf(cat, k / 256), items[k])
  }

  lemma StoreKeepsOk(cat: Catalog, items: map<nat, Item>, e: Entry, kv: map<nat, IVal>)
    requires e.IntentEntry? && PlanStore(cat, items, e, kv).Leaves? && SlotsFit(cat) && ItemsOk(cat, items)
    ensures ItemsOk(cat, PlanStore(cat, items, e, kv).items)
  {
    hide PlanStore, ItemOk;
    var after := PlanStore(cat, items, e, kv).items;
    StoreEffect(cat, items, e, kv);
    KeyParts(e.storeId.value, SlotSaid(e, kv).value.r.Floor);
    if KeySaid(cat, e, kv).value in after {
      LeftOk(cat, items, e, kv);
    }
  }

  /** The item a store operation leaves is one its store may hold, if the one before was. */
  lemma LeftOk(cat: Catalog, items: map<nat, Item>, e: Entry, kv: map<nat, IVal>)
    requires e.IntentEntry? && PlanStore(cat, items, e, kv).Leaves? && SlotsFit(cat) && ItemsOk(cat, items)
    requires KeySaid(cat, e, kv).Some?
    ensures var k, after := KeySaid(cat, e, kv).value, PlanStore(cat, items, e, kv).items;
            k in after ==> ItemOk(DescOf(cat, e.storeId.value), after[k])
  {
    hide Bound, FirstAct, SavedPayload, Get;
    StoreIsStore(cat.entries, e.storeId.value);
    KeyParts(e.storeId.value, SlotSaid(e, kv).value.r.Floor);
  }

  lemma PlanItems(cat: Catalog, s: State, sid: nat, e: Entry, kv: map<nat, IVal>, trial: bool)
    requires e.IntentEntry? && PlanOf(cat, s, sid, e, kv, trial).Leaves?
    ensures PlanOf(cat, s, sid, e, kv, trial) == PlanStore(cat, s.items, e, kv)
  {
    hide TrialRefusal, WriteRefusal, PlanStore, Has;
  }

  lemma NextItemsAre(cat: Catalog, s: State, ev: Event)
    requires Fits(cat, s.vals)
    ensures var t, x := Next(cat, s, ev), EffectOf(cat, s, ev);
            t.items == if x.Does? && x.plan.Leaves? then x.plan.items else s.items
  {
    hide Next, EffectOf, Perform, EndTrials, LatchEstop, PlanOf, Admitted;
    var x := EffectOf(cat, s, ev);
    NextMachine(cat, s, ev);
    match x
    case Does(sid, e, kv, trial, plan) => PerformItems(cat, s, sid, e.id, kv, trial, plan);
    case Closes(sid) => EndItems(cat, Without(s, sid), sid, false);
    case Estops => EstopItems(cat, s);
    case Quiet =>
  }

  /** In every state of a run every item is within the limits of its store. */
  lemma {:induction false} TraceItemsOk(cat: Catalog, states: seq<State>, evs: seq<Event>, k: nat)
    requires Trace(cat, states, evs) && SlotsFit(cat) && ItemsOk(cat, states[0].items) && k < |states|
    ensures ItemsOk(cat, states[k].items)
  {
    hide Next, SlotsFit, ItemsOk, EffectOf, PlanOf, PlanStore;
    if k > 0 {
      TraceItemsOk(cat, states, evs, k - 1);
      var s := states[k - 1];
      NextItemsAre(cat, s, evs[k - 1]);
      EffectDecided(cat, s, evs[k - 1]);
      var x := EffectOf(cat, s, evs[k - 1]);
      if x.Does? && x.plan.Leaves? {
        PlanItems(cat, s, x.sid, x.e, x.kv, x.trial);
        StoreKeepsOk(cat, s.items, x.e, x.kv);
      }
    }
  }

  // ---- what was saved is what is loaded ---------------------------------------------------------------

  /** The hub carries out an operation `op` that changes the item under the key. */
  ghost predicate Stores(cat: Catalog, s: State, ev: Event, op: real, k: nat) {
    var x := EffectOf(cat, s, ev);
    x.Does? && x.plan.Leaves? && x.e.IntentEntry? && OpSaid(x.e, x.kv) == Some(INum(op)) && KeySaid(cat, x.e, x.kv) == Some(k)
  }

  ghost predicate Rewrites(cat: Catalog, s: State, ev: Event, k: nat) {
    Stores(cat, s, ev, STORE_SAVE, k) || Stores(cat, s, ev, STORE_DELETE, k) || Stores(cat, s, ev, STORE_RENAME, k)
  }

  lemma OpsCarried(cat: Catalog, items: map<nat, Item>, e: Entry, kv: map<nat, IVal>)
    requires e.IntentEntry? && PlanStore(cat, items, e, kv).Leaves?
    ensures OpSaid(e, kv) in {Some(INum(STORE_SAVE)), Some(INum(STORE_DELETE)), Some(INum(STORE_RENAME))}
  {
    hide Bound, FirstAct, SavedPayload, Get;
  }

  /** An event that does not rewrite a key leaves its item as it was. */
  lemma KeptUnless(cat: Catalog, s: State, ev: Event, k: nat)
    requires Fits(cat, s.vals) && !Rewrites(cat, s, ev, k)
    ensures k in Next(cat, s, ev).items <==> k in s.items
    ensures k in s.items ==> Next(cat, s, ev).items[k] == s.items[k]
  {
    hide Next, EffectOf, PlanOf, PlanStore, KeySaid, OpSaid;
    var x := EffectOf(cat, s, ev);
    NextItemsAre(cat, s, ev);
    EffectDecided(cat, s, ev);
    if x.Does? && x.plan.Leaves? {
      PlanItems(cat, s, x.sid, x.e, x.kv, x.trial);
      StoreEffect(cat, s.items, x.e, x.kv);
      OpsCarried(cat, s.items, x.e, x.kv);
    }
  }

  lemma {:induction false} KeptThrough(cat: Catalog, states: seq<State>, evs: seq<Event>, i: nat, j: nat, k: nat)
    requires Trace(cat, states, evs) && i <= j < |states| == |evs| + 1
    requires forall n :: i <= n < j ==> !Rewrites(cat, states[n], evs[n], k)
    ensures k in states[j].items <==> k in states[i].items
    ensures k in states[i].items ==> states[j].items[k] == states[i].items[k]
  {
    hide Next, Rewrites;
    if i < j {
      KeptThrough(cat, states, evs, i, j - 1, k);
      KeptUnless(cat, states[j - 1], evs[j - 1], k);
      assert states[j] == Next(cat, states[j - 1], evs[j - 1]);
    }
  }

  /** The payload of a save is what the slot holds as long as nothing rewrites it. */
  lemma SavedStays(cat: Catalog, states: seq<State>, evs: seq<Event>, i: nat, j: nat, k: nat)
    requires Trace(cat, states, evs) && i < j < |states| == |evs| + 1
    requires Stores(cat, states[i], evs[i], STORE_SAVE, k)
    requires forall n :: i < n < j ==> !Rewrites(cat, states[n], evs[n], k)
    ensures var x := EffectOf(cat, states[i], evs[i]);
            k in states[j].items && Some(states[j].items[k].payload) == PayloadSaid(x.e, x.kv)
  {
    hide Next, EffectOf, PlanOf, PlanStore, KeySaid, OpSaid, PayloadSaid, Rewrites, ItemOk, WithinLimit;
    var x := EffectOf(cat, states[i], evs[i]);
    EffectDecided(cat, states[i], evs[i]);
    NextItemsAre(cat, states[i], evs[i]);
    assert states[i + 1] == Next(cat, states[i], evs[i]);
    PlanItems(cat, states[i], x.sid, x.e, x.kv, x.trial);
    StoreEffect(cat, states[i].items, x.e, x.kv);
    KeptThrough(cat, states, evs, i + 1, j, k);
  }

  /** The name an intent leaves in an occupied slot: the one it says, or the one there is. */
  function NameLeft(item: Item, e: Entry, kv: map<nat, IVal>): seq<byte>
    requires e.IntentEntry?
  {
    if NameSaid(e, kv).Some? && NameSaid(e, kv).value.IText? then NameSaid(e, kv).value.b else item.name
  }

  /**
   * A load after a save of the same slot, with nothing rewriting it between, is accepted unless the
   * name it says is too long, and the slot holds the payload that was saved.
   */
  lemma LoadAfterSave(cat: Catalog, states: seq<State>, evs: seq<Event>, i: nat, j: nat, e: Entry, kv: map<nat, IVal>)
    requires Trace(cat, states, evs) && i < j < |states| == |evs| + 1
    requires e.IntentEntry? && KeySaid(cat, e, kv).Some? && OpSaid(e, kv) == Some(INum(STORE_LOAD))
    requires Stores(cat, states[i], evs[i], STORE_SAVE, KeySaid(cat, e, kv).value)
    requires forall n :: i < n < j ==> !Rewrites(cat, states[n], evs[n], KeySaid(cat, e, kv).value)
    ensures var x, k := EffectOf(cat, states[i], evs[i]), KeySaid(cat, e, kv).value;
            && k in states[j].items && Some(states[j].items[k].payload) == PayloadSaid(x.e, x.kv)
            && (PlanStore(cat, states[j].items, e, kv) == Keep
                <==> WithinLimit(DescOf(cat, e.storeId.value).nameMax, |NameLeft(states[j].items[k], e, kv)|))
  {
    hide EffectOf, PlanStore, OpSaid, PayloadSaid, Rewrites, NameLeft, WithinLimit, Stores, Next;
    SavedStays(cat, states, evs, i, j, KeySaid(cat, e, kv).value);
    Loads(cat, states[j].items, e, kv);
  }

  lemma Loads(cat: Catalog, items: map<nat, Item>, e: Entry, kv: map<nat, IVal>)
    requires e.IntentEntry? && KeySaid(cat, e, kv).Some? && OpSaid(e, kv) == Some(INum(STORE_LOAD))
    requires KeySaid(cat, e, kv).value in items
    ensures PlanStore(cat, items, e, kv) == Keep
       <==> WithinLimit(DescOf(cat, e.storeId.value).nameMax, |NameLeft(items[KeySaid(cat, e, kv).value], e, kv)|)
  {
    hide Bound, FirstAct, SavedPayload, Get;
    StoreIsStore(cat.entries, e.storeId.value);
  }
}
