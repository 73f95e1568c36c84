/**
 * The in-page hub as a step function over its state (clients/js/localhub.js): intents, raw ESTOP
 * frames, the session plane and socket closes, as the imperative LocalHub is proved to take them.
 */
module Hub {
  import opened Bytes
  import opened Packed
  import opened HubCatalog
  import PackedWrite
  import Cbor

  const RING := 32

  // Safety operations (safety_intent_ops) and trial operations (trial_ops).
  const OP_RELEASE := 1.0
  const OP_PAUSE := 4.0
  const OP_RESUME := 5.0
  const OP_ESTOP := 6.0
  const OP_OVERRIDE := 7.0
  const OP_RETURN := 8.0
  const TRIAL_COMMIT := 1.0
  const TRIAL_REVERT := 2.0
  const STORE_SAVE := 1.0
  const STORE_LOAD := 2.0
  const STORE_DELETE := 3.0
  const STORE_RENAME := 4.0

  const CAUSE_USER := 0
  const KEY_PAYLOAD := 7 // blob_keys.payload

  /** The safety snapshot, its two bit fields split into the bits this hub knows and the rest. */
  datatype Latch = Latch(
    estop: bool, paused: bool, wordRest: nat, cause: nat, owner: nat, estopSeq: u16,
    override: bool, homeRequired: bool, modesRest: nat)

  datatype Item = Item(slot: nat, name: seq<byte>, kind: seq<byte>, payload: seq<byte>)

  datatype Trial = Trial(sid: nat, base: map<Loc, Val>)

  datatype Echo = Echo(cfgGen: nat, id: nat, applied: map<nat, IVal>)

  /**
   * One connection. `view` and `latchView` are the last STATE pushed to it, place by place: what
   * its peer has seen.
   */
  datatype Conn = Conn(
    ready: bool, roles: nat, subs: set<nat>, ring: seq<Echo>, view: map<Loc, Val>, latchView: Option<Latch>)

  datatype State = State(
    vals: map<Loc, Val>, latch: Latch, items: map<nat, Item>, gens: map<nat, u16>,
    trials: map<Setting, Trial>, cfgGen: u16, conns: map<nat, Conn>)

  datatype Nack =
    | UnknownChannel | ClassMismatch | InvalidValue | NotReady | NotController | AccessDenied
    | TrialConflict | UnsupportedOp | EstopActive | NotHomed | Interlock | SourceConflict | Malformed

  /** The map's entries in their order, keys distinct. */
  datatype KV = KV(key: nat, v: IVal)

  datatype Intent = Intent(ch: nat, id: Option<nat>, value: Option<seq<KV>>, trial: bool)

  datatype Reply = EchoReply(e: Echo) | NackReply(code: Nack) | ThrownReply

  // ---- pushes ------------------------------------------------------------------------------

  /** A connection after STATE of the channels `chs` is pushed to whoever subscribes. */
  function Shown(c: Conn, vals: map<Loc, Val>, chs: set<nat>): Conn {
    if !c.ready then c
    else c.(view := c.view + map l | l in vals && l.ch in chs && l.ch in c.subs :: vals[l])
  }

  function ShownLatch(c: Conn, latch: Latch): Conn {
    if c.ready && CH_SAFETY in c.subs then c.(latchView := Some(latch)) else c
  }

  function ShownAll(conns: map<nat, Conn>, vals: map<Loc, Val>, chs: set<nat>): map<nat, Conn> {
    map sid | sid in conns :: Shown(conns[sid], vals, chs)
  }

  function Show(s: State, chs: set<nat>): State {
    s.(conns := ShownAll(s.conns, s.vals, chs))
  }

  function LatchedAll(conns: map<nat, Conn>, latch: Latch): map<nat, Conn> {
    map sid | sid in conns :: ShownLatch(conns[sid], latch)
  }

  /** `setLatch`: the new latch, broadcast at once. */
  function SetLatch(s: State, latch: Latch): State {
    s.(latch := latch, conns := LatchedAll(s.conns, latch))
  }

  // ---- field writes --------------------------------------------------------------------------

  function StoredAt(cat: Catalog, l: Loc, v: Val): Val
    requires cat.HasLoc(l) && Known(cat.At(l).f.kind)
  {
    PackedWrite.Stored(cat.single, cat.At(l).f, v)
  }

  /** The state's values are exactly the places of the catalog. */
  ghost predicate Fits(cat: Catalog, vals: map<Loc, Val>) {
    cat.WellFormed() && vals.Keys == cat.Locs()
  }

  /** Write a new value to some places; `w(l)` is None where nothing is written. */
  function Rewritten(cat: Catalog, vals: map<Loc, Val>, w: Loc -> Option<Val>): (r: map<Loc, Val>)
    requires Fits(cat, vals)
    ensures r.Keys == vals.Keys && Fits(cat, r)
  {
    map l | l in vals :: if w(l).None? then vals[l] else (cat.Placed(l); StoredAt(cat, l, w(l).value))
  }

  // ---- the safety latch --------------------------------------------------------------------------

  predicate Running(cat: Catalog, vals: map<Loc, Val>, l: Loc) {
    l in vals && cat.IsSource(l) && Truthy(vals[l])
  }

  /** `sourceRunning(except)`. */
  predicate SourceRunning(cat: Catalog, vals: map<Loc, Val>, except: Option<Loc>) {
    exists l :: l in vals && Running(cat, vals, l) && except != Some(l)
  }

  function RunningChannels(cat: Catalog, vals: map<Loc, Val>): set<nat> {
    set l | l in vals && Running(cat, vals, l) :: l.ch
  }

  /** The latch once an emergency stop is in force. */
  function Estopped(cat: Catalog, L: Latch): Latch {
    if L.estop then L
    else L.(estop := true, cause := CAUSE_USER, estopSeq := (L.estopSeq + 1) % 0x1_0000, override := false,
            homeRequired := L.homeRequired || cat.cutsPower)
  }

  /** Every running source stopped. */
  function Stopped(cat: Catalog, vals: map<Loc, Val>): (r: map<Loc, Val>)
    requires Fits(cat, vals)
    ensures r.Keys == vals.Keys && Fits(cat, r)
  {
    Rewritten(cat, vals, l => if Running(cat, vals, l) then Some(Num(0.0)) else None)
  }

  function LatchEstop(cat: Catalog, s: State): (r: State)
    requires Fits(cat, s.vals)
    ensures Fits(cat, r.vals)
  {
    if s.latch.estop then s
    else SetLatch(Show(s.(vals := Stopped(cat, s.vals)), RunningChannels(cat, s.vals)), Estopped(cat, s.latch))
  }

  /**
   * What an intent comes to. It is decided on the state before any write, so carrying it out is a
   * separate step.
   */
  datatype Plan =
    | Refuse(code: Nack)
    | Keep // accepted, and nothing to do
    | EstopNow
    | To(latch: Latch)
    | Leaves(items: map<nat, Item>, d: StoreDesc)
    | Writes(homed: bool)
    | EndAll(commit: bool)

  /** A safety operation, by the latch alone. */
  function PlanSafety(L: Latch, op: Option<IVal>): Plan {
    if op.None? || !op.value.INum? then Refuse(UnsupportedOp)
    else
      var r := op.value.r;
      if r == OP_ESTOP then EstopNow
      else if r == OP_PAUSE then if L.paused then Keep else To(L.(paused := true, cause := CAUSE_USER))
      else if r == OP_RESUME then
        if L.estop then Refuse(EstopActive)
        else if L.override then Refuse(Interlock)
        else if L.homeRequired then Refuse(NotHomed)
        else if L.paused then To(L.(paused := false)) else Keep
      else if r == OP_RELEASE then if L.estop then To(L.(estop := false, paused := true)) else Keep
      else if r == OP_OVERRIDE then
        if L.estop then Refuse(EstopActive)
        else To(if L.paused then L.(override := true) else L.(override := true, paused := true, cause := CAUSE_USER))
      else if r == OP_RETURN then if L.override then To(L.(override := false)) else Keep
      else Refuse(UnsupportedOp)
  }

  // ---- stores --------------------------------------------------------------------------------------

  function ItemKey(sid: nat, slot: nat): nat {
    sid * 256 + slot
  }

  function StoreIn(entries: seq<Entry>, sid: nat): Option<Entry> {
    if entries == [] then None
    else if entries[0].StoreEntry? && entries[0].store.storeId == sid then Some(entries[0])
    else StoreIn(entries[1..], sid)
  }

  function RosterIn(entries: seq<Entry>, sid: nat): Option<Entry> {
    if entries == [] then None
    else if entries[0].StateEntry? && entries[0].storeId == Some(sid) then Some(entries[0])
    else RosterIn(entries[1..], sid)
  }

  /** `layout.find((x) => x.name === name)`. */
  function FieldNamed(layout: seq<LayoutField>, name: string, from: nat): (r: Option<nat>)
    requires from <= |layout|
    ensures r.Some? ==> from <= r.value < |layout| && layout[r.value].f.name == name
    decreases |layout| - from
  {
    if from == |layout| then None
    else if layout[from].f.name == name then Some(from)
    else FieldNamed(layout, name, from + 1)
  }

  /** The item keys of one store. */
  function KeysOf(items: map<nat, Item>, sid: nat): set<nat> {
    set k | k in items && k / 256 == sid
  }

  /** What `syncRoster` writes into the roster entry, if the place is one of its three fields. */
  function RosterValue(r: Entry, l: Loc, gen: nat, count: nat, capacity: nat): Option<Val>
    requires r.StateEntry?
  {
    if l.ch != r.id then None
    else if FieldNamed(r.layout, "capacity", 0) == Some(l.i) then Some(Num(capacity as real))
    else if FieldNamed(r.layout, "count", 0) == Some(l.i) then Some(Num(count as real))
    else if FieldNamed(r.layout, "generation", 0) == Some(l.i) then Some(Num(gen as real))
    else None
  }

  function SyncRoster(cat: Catalog, s: State, sid: nat, capacity: nat): (r: State)
    requires Fits(cat, s.vals)
    ensures Fits(cat, r.vals)
  {
    match RosterIn(cat.entries, sid)
    case None => s
    case Some(roster) =>
      RosterIsState(cat.entries, sid);
      var gen := GenOf(s.gens, sid);
      s.(vals := Rewritten(cat, s.vals, l => RosterValue(roster, l, gen, |KeysOf(s.items, sid)|, capacity)))
  }

  lemma {:induction false} RosterIsState(entries: seq<Entry>, sid: nat)
    ensures RosterIn(entries, sid).Some? ==>
              RosterIn(entries, sid).value.StateEntry? && RosterIn(entries, sid).value in entries
              && RosterIn(entries, sid).value.storeId == Some(sid)
  {
    if entries != [] {
      RosterIsState(entries[1..], sid);
    }
  }

  lemma {:induction false} StoreIsStore(entries: seq<Entry>, sid: nat)
    ensures StoreIn(entries, sid).Some? ==>
              StoreIn(entries, sid).value.StoreEntry? && StoreIn(entries, sid).value.store.storeId == sid
  {
    if entries != [] {
      StoreIsStore(entries[1..], sid);
    }
  }

  /** The one field without a role of this kind, if there is exactly one. */
  function OnlyPlain(schema: seq<SchemaField>, kind: CborKind): Option<SchemaField> {
    var plain := Plains(schema, kind);
    if |plain| == 1 then Some(plain[0]) else None
  }

  function Plains(schema: seq<SchemaField>, kind: CborKind): seq<SchemaField> {
    if schema == [] then []
    else (if schema[0].act == Plain && schema[0].kind == kind then [schema[0]] else []) + Plains(schema[1..], kind)
  }

  function Bound(schema: seq<SchemaField>, act: Action, kind: CborKind): Option<SchemaField> {
    var f := FirstAct(schema, act);
    if f.Some? then f else OnlyPlain(schema, kind)
  }

  function Get(kv: map<nat, IVal>, f: Option<SchemaField>): Option<IVal> {
    if f.Some? && f.value.key in kv then Some(kv[f.value.key]) else None
  }

  /** The payload of an item document, empty when it has none; None is a document that cannot be read. */
  function DocumentPayload(raw: seq<byte>): Option<seq<byte>> {
    var d := Cbor.Decoded(raw, 0);
    if d.Some? && d.value.v.Map? then Some(PayloadIn(d.value.v.pairs)) else None
  }

  function PayloadIn(ps: seq<Cbor.Pair>): seq<byte> {
    if ps == [] then []
    else if ps[0].key == Cbor.UInt(Cbor.Num(KEY_PAYLOAD)) then (if ps[0].val.Bytes? then ps[0].val.b else [])
    else PayloadIn(ps[1..])
  }

  /** The payload to save: of the item document if the field carries one, the bare bytes otherwise. */
  function SavedPayload(itemF: Option<SchemaField>, raw: Option<IVal>): Option<seq<byte>> {
    if raw.None? || !raw.value.IBytes? then Some([])
    else if itemF.Some? && itemF.value.act != Plain then DocumentPayload(raw.value.b)
    else Some(raw.value.b)
  }

  /** Zero stands for no limit. */
  predicate WithinLimit(limit: Option<nat>, n: nat) {
    limit.Some? && limit.value > 0 ==> n <= limit.value
  }

  /** What a store operation does to one slot: the slot's new document, or why it is refused. */
  datatype SlotChange = SlotRefused(code: Nack) | Unchanged | Put(item: Item) | Removed

  /** `item` has the payload there is; a save gives it the one it was sent. */
  function SlotOp(op: Option<IVal>, occupied: bool, item: Item, saved: Option<seq<byte>>, perItemMax: Option<nat>): SlotChange {
    if op.None? || !op.value.INum? then SlotRefused(UnsupportedOp)
    else if op.value.r == STORE_SAVE then
      if saved.None? then SlotRefused(Malformed)
      else if !WithinLimit(perItemMax, |saved.value|) then SlotRefused(InvalidValue)
      else Put(item.(payload := saved.value))
    else if op.value.r == STORE_LOAD then if occupied then Unchanged else SlotRefused(InvalidValue)
    else if op.value.r == STORE_DELETE then Removed
    else if op.value.r == STORE_RENAME then if occupied then Put(item) else SlotRefused(InvalidValue)
    else SlotRefused(UnsupportedOp)
  }

  function PlanStore(cat: Catalog, items: map<nat, Item>, e: Entry, kv: map<nat, IVal>): Plan
    requires e.IntentEntry?
  {
    var st := if e.storeId.Some? then StoreIn(cat.entries, e.storeId.value) else None;
    if st.None? then Refuse(UnsupportedOp)
    else
      StoreIsStore(cat.entries, e.storeId.value);
      var d := st.value.store;
      var slot := Get(kv, Bound(e.schema, StoreSlot, UIntT));
      if slot.None? || !SlotFits(slot.value, d.capacity) then Refuse(InvalidValue)
      else PlanSlot(items, d, slot.value.r.Floor, e, kv)
  }

  predicate SlotFits(v: IVal, capacity: nat) {
    v.INum? && HubCatalog.Whole(v.r) && 0 <= v.r.Floor < capacity
  }

  /** The document of a slot before it is given a payload: with the name said, or the one there was. */
  function Renamed(have: Option<Item>, slot: nat, said: Option<IVal>, kind: seq<byte>): Item {
    Item(slot, if said.Some? && said.value.IText? then said.value.b else if have.Some? then have.value.name else [],
         kind, if have.Some? then have.value.payload else [])
  }

  function PlanSlot(items: map<nat, Item>, d: StoreDesc, slot: nat, e: Entry, kv: map<nat, IVal>): Plan
    requires e.IntentEntry?
  {
    var k := ItemKey(d.storeId, slot);
    var have := if k in items then Some(items[k]) else None;
    var item := Renamed(have, slot, Get(kv, Bound(e.schema, StoreName, TStr)), d.kind);
    if !WithinLimit(d.nameMax, |item.name|) then Refuse(InvalidValue)
    else
      var itemF := Bound(e.schema, StoreItem, BStr);
      match SlotOp(Get(kv, FirstAct(e.schema, StoreAct)), have.Some?, item, SavedPayload(itemF, Get(kv, itemF)), d.perItemMax)
      case SlotRefused(code) => Refuse(code)
      case Unchanged => Keep
      case Put(doc) => Leaves(items[k := doc], d)
      case Removed => Leaves(items - {k}, d)
  }

  function RosterChannels(cat: Catalog, sid: nat): set<nat> {
    match RosterIn(cat.entries, sid)
    case None => {}
    case Some(r) => {r.id}
  }

  function GenOf(gens: map<nat, u16>, sid: nat): u16 {
    if sid in gens then gens[sid] else 0
  }

  function NextGen(gens: map<nat, u16>, sid: nat): u16 {
    (GenOf(gens, sid) + 1) % 0x1_0000
  }

  /** A mutation of the item list: the generation moves on and the roster follows. */
  function Mutated(cat: Catalog, s: State, items: map<nat, Item>, d: StoreDesc): (r: State)
    requires Fits(cat, s.vals)
    ensures Fits(cat, r.vals)
  {
    SyncRoster(cat, s.(items := items, gens := s.gens[d.storeId := NextGen(s.gens, d.storeId)]), d.storeId, d.capacity)
  }

  // ---- trials ------------------------------------------------------------------------------------------

  /** Every place that mirrors a setting, with its value now. */
  function Base(cat: Catalog, vals: map<Loc, Val>, st: Setting): map<Loc, Val> {
    map l | l in vals && cat.SettingOf(l) == Some(st) :: vals[l]
  }

  predicate Trialable(cat: Catalog, vals: map<Loc, Val>, st: Setting) {
    && Base(cat, vals, st) != map[]
    && forall l :: l in Base(cat, vals, st) ==> cat.HasLoc(l) && cat.At(l).role != Source && !cat.At(l).secret
  }

  /** How many of the first `n` fields of a layout mirror a setting. */
  function SettingsBefore(layout: seq<LayoutField>, n: nat): nat
    requires n <= |layout|
  {
    if n == 0 then 0 else SettingsBefore(layout, n - 1) + (if layout[n - 1].key.Some? then 1 else 0)
  }

  /** How many of the first `n` fields are trial marks. */
  function MarksBefore(layout: seq<LayoutField>, n: nat): nat
    requires n <= |layout|
  {
    if n == 0 then 0 else MarksBefore(layout, n - 1) + (if layout[n - 1].role == TrialMark then 1 else 0)
  }

  /** Bit `b` of the trial word: `1 << i` for the i-th setting keeps only the low five bits of `i`. */
  predicate TrialBit(e: Entry, trials: map<Setting, Trial>, b: nat)
    requires e.StateEntry? && e.setting.Some?
  {
    exists k :: 0 <= k < |e.layout| && e.layout[k].key.Some?
             && SettingsBefore(e.layout, k) % 32 == b
             && Setting(e.setting.value, e.layout[k].key.value) in trials
  }

  /** Bits `shift` to `shift + 7` of the trial word, as a byte; `n` of them. */
  function MaskByte(e: Entry, trials: map<Setting, Trial>, shift: nat, n: nat): (m: nat)
    requires e.StateEntry? && e.setting.Some?
    decreases n
  {
    if n == 0 then 0
    else (if TrialBit(e, trials, shift) then 1 else 0) + 2 * MaskByte(e, trials, shift + 1, n - 1)
  }

  /** What `trialMasks` writes at a place: the byte of its mark, unless it already reads so. */
  function MaskValue(cat: Catalog, vals: map<Loc, Val>, trials: map<Setting, Trial>, l: Loc): Option<Val>
    requires l in vals
  {
    if cat.HasLoc(l) && cat.At(l).role == TrialMark && cat.StateAt(l).setting.Some? then
      var v := Num(MaskByte(cat.StateAt(l), trials, 8 * MarksBefore(cat.StateAt(l).layout, l.i) % 32, 8) as real);
      if vals[l] == v then None else Some(v)
    else None
  }

  function Masked(cat: Catalog, s: State): (r: State)
    requires Fits(cat, s.vals)
    ensures Fits(cat, r.vals)
  {
    s.(vals := Rewritten(cat, s.vals, l => if l in s.vals then MaskValue(cat, s.vals, s.trials, l) else None))
  }

  function MaskChannels(cat: Catalog, s: State): set<nat> {
    set l | l in s.vals && MaskValue(cat, s.vals, s.trials, l).Some? :: l.ch
  }

  predicate HeldBy(trials: map<Setting, Trial>, st: Setting, sid: nat) {
    st in trials && trials[st].sid == sid
  }

  /** The baseline a place returns to when `sid` reverts, if one of its trials covers the place. */
  function BaselineOf(cat: Catalog, trials: map<Setting, Trial>, sid: nat, l: Loc): Option<Val> {
    match cat.SettingOf(l)
    case None => None
    case Some(st) => if HeldBy(trials, st, sid) && l in trials[st].base then Some(trials[st].base[l]) else None
  }

  /** A place moves when its baseline differs from what it reads. */
  function RevertValue(cat: Catalog, s: State, sid: nat, l: Loc): Option<Val> {
    var b := BaselineOf(cat, s.trials, sid, l);
    if l in s.vals && b.Some? && s.vals[l] != b.value then b else None
  }

  function Reverted(cat: Catalog, s: State, sid: nat): (r: State)
    requires Fits(cat, s.vals)
    ensures Fits(cat, r.vals)
  {
    s.(vals := Rewritten(cat, s.vals, l => RevertValue(cat, s, sid, l)))
  }

  function Dropped(trials: map<Setting, Trial>, sid: nat): map<Setting, Trial> {
    map st | st in trials && trials[st].sid != sid :: trials[st]
  }

  function RevertChannels(cat: Catalog, s: State, sid: nat): set<nat> {
    set l | l in s.vals && RevertValue(cat, s, sid, l).Some? :: l.ch
  }

  /** Trials ended, their marks not yet redone. */
  function Unmasked(cat: Catalog, s: State, sid: nat, commit: bool): (r: State)
    requires Fits(cat, s.vals)
    ensures Fits(cat, r.vals)
  {
    (if commit then s else Reverted(cat, s, sid)).(trials := Dropped(s.trials, sid))
  }

  datatype Ended = Ended(s: State, changed: set<nat>, moved: bool)

  /** `endTrials`: commit or revert every trial `sid` holds. */
  function EndTrials(cat: Catalog, s: State, sid: nat, commit: bool): (r: Ended)
    requires Fits(cat, s.vals)
    ensures Fits(cat, r.s.vals)
  {
    var t := Unmasked(cat, s, sid, commit);
    var moved := if commit then {} else RevertChannels(cat, s, sid);
    Ended(Masked(cat, t), moved + MaskChannels(cat, t), moved != {})
  }

  // ---- settings writes -----------------------------------------------------------------------------------

  /** What an intent on `ch` writes at a place, clamped by the place's own bounds. */
  function WrittenAt(cat: Catalog, ch: nat, kv: map<nat, IVal>, l: Loc): Option<IVal> {
    if cat.SettingOf(l).Some? && cat.SettingOf(l).value.ch == ch && cat.SettingOf(l).value.key in kv
       && cat.IsTarget(l, cat.SettingOf(l).value)
    then Some(ClampVal(cat.At(l).min, cat.At(l).max, kv[cat.SettingOf(l).value.key]))
    else None
  }

  function WriteAt(cat: Catalog, ch: nat, kv: map<nat, IVal>, l: Loc): Option<Val> {
    var v := WrittenAt(cat, ch, kv, l);
    if v.Some? then Some(AsVal(v.value)) else None
  }

  /** A write starts a source: its place is one, the value is truthy, and it is not running yet. */
  predicate StartsAt(cat: Catalog, vals: map<Loc, Val>, l: Loc, v: IVal) {
    l in vals && cat.IsSource(l) && !Truthy(vals[l]) && Says(v)
  }

  predicate Starts(cat: Catalog, s: State, ch: nat, kv: map<nat, IVal>, l: Loc) {
    WrittenAt(cat, ch, kv, l).Some? && StartsAt(cat, s.vals, l, WrittenAt(cat, ch, kv, l).value)
  }

  /** A secret is never stored in a snapshot. */
  function StoreAt(cat: Catalog, ch: nat, kv: map<nat, IVal>, l: Loc): Option<Val> {
    if cat.HasLoc(l) && cat.At(l).secret then None else WriteAt(cat, ch, kv, l)
  }

  /** `layout.find((x) => x.settingKey === key)`. */
  function KeyedAt(layout: seq<LayoutField>, key: nat, from: nat): (r: Option<nat>)
    requires from <= |layout|
    ensures r.Some? ==> from <= r.value < |layout| && layout[r.value].key == Some(key)
                        && forall j :: from <= j < r.value ==> layout[j].key != Some(key)
    ensures r.None? ==> forall j :: from <= j < |layout| ==> layout[j].key != Some(key)
    decreases |layout| - from
  {
    if from == |layout| then None
    else if layout[from].key == Some(key) then Some(from)
    else KeyedAt(layout, key, from + 1)
  }

  /** The field of an entry that an intent on `ch` writes for `key`. */
  function MirrorAt(e: Entry, ch: nat, key: nat): (r: Option<nat>)
    ensures r.Some? ==> e.StateEntry? && r.value < |e.layout|
  {
    if e.StateEntry? && e.setting == Some(ch) then KeyedAt(e.layout, key, 0) else None
  }

  /** The field of the last of the first `n` entries that mirrors the key. */
  function LastMirror(entries: seq<Entry>, n: nat, ch: nat, key: nat): Option<LayoutField>
    requires n <= |entries|
  {
    if n == 0 then None
    else
      var here := MirrorAt(entries[n - 1], ch, key);
      if here.Some? then Some(entries[n - 1].layout[here.value]) else LastMirror(entries, n - 1, ch, key)
  }

  /** The value the ECHO reports for a key: clamped by the last STATE entry that mirrors it. */
  function AppliedValue(entries: seq<Entry>, ch: nat, key: nat, v: IVal): IVal {
    var f := LastMirror(entries, |entries|, ch, key);
    if f.Some? then ClampVal(f.value.min, f.value.max, v) else v
  }

  function Applied(cat: Catalog, ch: nat, kv: map<nat, IVal>): (r: map<nat, IVal>)
    ensures r.Keys == kv.Keys
  {
    map k | k in kv :: AppliedValue(cat.entries, ch, k, kv[k])
  }

  predicate Has(e: Entry, act: Action, kv: map<nat, IVal>)
    requires e.IntentEntry?
  {
    exists i :: 0 <= i < |e.schema| && e.schema[i].act == act && e.schema[i].key in kv
  }

  /** Why homing or a commanded move is refused. */
  function MoveRefusal(cat: Catalog, s: State, e: Entry, kv: map<nat, IVal>): Option<Nack>
    requires e.IntentEntry?
  {
    var L := s.latch;
    if Has(e, HomeAct, kv) && L.estop then Some(EstopActive)
    else if !Has(e, CommandPosition, kv) then None
    else if L.estop then Some(EstopActive)
    else if L.homeRequired then Some(NotHomed)
    else if !L.override && L.paused then Some(Interlock)
    else if !L.override && SourceRunning(cat, s.vals, None) then Some(SourceConflict)
    else None
  }

  /** Why a write that starts a source at `l` is refused. */
  function StartRefusal(cat: Catalog, s: State, l: Loc): Option<Nack> {
    if s.latch.estop then Some(EstopActive)
    else if s.latch.paused then Some(Interlock)
    else if SourceRunning(cat, s.vals, Some(l)) then Some(SourceConflict)
    else None
  }

  /** Why a settings write is refused, if it is: every check reads the state before any write. */
  function WriteRefusal(cat: Catalog, s: State, e: Entry, kv: map<nat, IVal>): Option<Nack>
    requires e.IntentEntry?
  {
    var no := MoveRefusal(cat, s, e, kv);
    if no.Some? then no
    else if !exists l :: l in s.vals && Starts(cat, s, e.id, kv, l) then None
    else if s.latch.estop then Some(EstopActive)
    else if s.latch.paused then Some(Interlock)
    else if exists l :: l in s.vals && Starts(cat, s, e.id, kv, l) && SourceRunning(cat, s.vals, Some(l))
      then Some(SourceConflict)
    else None
  }

  function WriteChannels(cat: Catalog, s: State, ch: nat, kv: map<nat, IVal>): set<nat> {
    set l | l in s.vals && WriteAt(cat, ch, kv, l).Some? :: l.ch
  }

  /** A settings write or a store operation. */
  function PlanWrite(cat: Catalog, s: State, e: Entry, kv: map<nat, IVal>): Plan
    requires e.IntentEntry?
  {
    if Has(e, StoreAct, kv) then PlanStore(cat, s.items, e, kv)
    else if WriteRefusal(cat, s, e, kv).Some? then Refuse(WriteRefusal(cat, s, e, kv).value)
    else Writes(Has(e, HomeAct, kv) && s.latch.homeRequired)
  }

  function Written(cat: Catalog, vals: map<Loc, Val>, ch: nat, kv: map<nat, IVal>): (r: map<Loc, Val>)
    requires Fits(cat, vals)
    ensures r.Keys == vals.Keys && Fits(cat, r)
  {
    Rewritten(cat, vals, l => StoreAt(cat, ch, kv, l))
  }

  // ---- one intent -----------------------------------------------------------------------------------------

  /** On the safety channel, the key of the operation. */
  function OpKey(e: Entry): Option<nat>
    requires e.IntentEntry?
  {
    if e.id == CH_SAFETY_INTENTS then OptionKey(e.schema) else None
  }

  function LookUp(value: seq<KV>, key: nat): Option<IVal> {
    if value == [] then None
    else if value[0].key == key then Some(value[0].v)
    else LookUp(value[1..], key)
  }

  /** Pause and estop outrank readiness and roles. */
  predicate Exempt(e: Entry, value: seq<KV>)
    requires e.IntentEntry?
  {
    OpKey(e).Some? &&
    var op := LookUp(value, OpKey(e).value);
    op == Some(INum(OP_PAUSE)) || op == Some(INum(OP_ESTOP))
  }

  function EchoIn(ring: seq<Echo>, id: nat): Option<Echo> {
    if ring == [] then None else if ring[0].id == id then Some(ring[0]) else EchoIn(ring[1..], id)
  }

  datatype Checked = Good(kv: map<nat, IVal>) | Bad(code: Nack)

  /** Every entry of the value against the schema, in order. */
  function Validated(e: Entry, roles: nat, value: seq<KV>, sofar: map<nat, IVal>): Checked
    requires e.IntentEntry?
    decreases value
  {
    if value == [] then Good(sofar)
    else
      var f := FieldByKey(e.schema, value[0].key);
      if f.None? then Bad(InvalidValue)
      else if roles < NeedFor(e, f.value, value[0].v) then Bad(AccessDenied)
      else
        var x := Coerced(f.value, value[0].v);
        if x.None? then Bad(InvalidValue)
        else Validated(e, roles, value[1..], sofar[value[0].key := x.value])
  }

  datatype Gate = Pass(e: Entry, kv: map<nat, IVal>) | Replay(echo: Echo) | Stop(code: Nack)

  /** Everything `onIntent` decides before it looks at the machine. */
  function GateOf(cat: Catalog, c: Conn, m: Intent): (g: Gate)
    ensures g.Pass? ==> g.e.IntentEntry? && cat.Find(m.ch) == Some(g.e)
  {
    match cat.Find(m.ch)
    case None => Stop(UnknownChannel)
    case Some(e) =>
      if !e.IntentEntry? then Stop(ClassMismatch)
      else if m.value.None? then Stop(InvalidValue)
      else if !c.ready && !Exempt(e, m.value.value) then Stop(NotReady)
      else if OpKey(e).Some? && !Exempt(e, m.value.value) && c.roles < CONTROL then Stop(NotController)
      else if m.id.Some? && EchoIn(c.ring, m.id.value).Some? then Replay(EchoIn(c.ring, m.id.value).value)
      else
        match Validated(e, c.roles, m.value.value, map[])
        case Bad(code) => Stop(code)
        case Good(kv) => Pass(e, kv)
  }

  /** Why the trial rules refuse, if they do. */
  function TrialRefusal(cat: Catalog, s: State, sid: nat, e: Entry, kv: map<nat, IVal>, trial: bool): Option<Nack>
    requires e.IntentEntry?
  {
    if !cat.TrialsOn() then None
    else if exists k :: k in kv && Setting(e.id, k) in s.trials && s.trials[Setting(e.id, k)].sid != sid
      then Some(TrialConflict)
    else if !trial then None
    else if OpKey(e).Some? || e.id == CH_SETTINGS_TRIAL || (exists i :: 0 <= i < |e.schema| && IsVerb(e.schema[i].act))
      then Some(UnsupportedOp)
    else if exists k :: k in kv && Setting(e.id, k) !in s.trials && !Trialable(cat, s.vals, Setting(e.id, k))
      then Some(UnsupportedOp)
    else None
  }

  /** The settings an intent names. */
  function SettingsNamed(ch: nat, kv: map<nat, IVal>): set<Setting> {
    set k | k in kv :: Setting(ch, k)
  }

  /** Trials after a write of `touched`: opened by a trial write, ended by a plain write of the holder. */
  function SettledOver(cat: Catalog, before: map<Loc, Val>, trials: map<Setting, Trial>, sid: nat,
                       touched: set<Setting>, trial: bool): map<Setting, Trial> {
    map st | st in trials.Keys + (if trial then touched else {})
             && (st in trials ==> trial || !(st in touched && trials[st].sid == sid))
      :: if st in trials then trials[st] else Trial(sid, Base(cat, before, st))
  }

  function Settled(cat: Catalog, before: map<Loc, Val>, trials: map<Setting, Trial>, sid: nat, ch: nat,
                   kv: map<nat, IVal>, trial: bool): map<Setting, Trial> {
    SettledOver(cat, before, trials, sid, SettingsNamed(ch, kv), trial)
  }

  /** An intent on `settings-trial`. */
  function PlanTrials(kv: map<nat, IVal>): Plan {
    if 1 in kv && (kv[1] == INum(TRIAL_COMMIT) || kv[1] == INum(TRIAL_REVERT)) then EndAll(kv[1] == INum(TRIAL_COMMIT))
    else Refuse(UnsupportedOp)
  }

  /** The operation a safety intent names. */
  function OpOf(e: Entry, kv: map<nat, IVal>): Option<IVal>
    requires e.IntentEntry? && OpKey(e).Some?
  {
    if OpKey(e).value in kv then Some(kv[OpKey(e).value]) else None
  }

  function PlanOf(cat: Catalog, s: State, sid: nat, e: Entry, kv: map<nat, IVal>, trial: bool): Plan
    requires e.IntentEntry?
  {
    if TrialRefusal(cat, s, sid, e, kv, trial).Some? then Refuse(TrialRefusal(cat, s, sid, e, kv, trial).value)
    else if cat.TrialsOn() && e.id == CH_SETTINGS_TRIAL then PlanTrials(kv)
    else if OpKey(e).Some? then PlanSafety(s.latch, OpOf(e, kv))
    else PlanWrite(cat, s, e, kv)
  }

  // ---- carrying a plan out -----------------------------------------------------------------------------------

  /** The state, the values to report, the channels to broadcast, and whether settings changed. */
  datatype Outcome = Outcome(s: State, kv: map<nat, IVal>, changed: set<nat>, config: bool)

  function Enact(cat: Catalog, s: State, sid: nat, ch: nat, kv: map<nat, IVal>, plan: Plan): (o: Outcome)
    requires Fits(cat, s.vals) && !plan.Refuse?
    ensures Fits(cat, o.s.vals)
  {
    match plan
    case Keep => Outcome(s, kv, {}, false)
    case EstopNow => Outcome(LatchEstop(cat, s), kv, {}, false)
    case To(latch) => Outcome(SetLatch(s, latch), kv, {}, false)
    case Leaves(items, d) => Outcome(Mutated(cat, s, items, d), kv, RosterChannels(cat, d.storeId), false)
    case EndAll(commit) =>
      var r := EndTrials(cat, s, sid, commit);
      Outcome(r.s, kv, r.changed, r.moved)
    case Writes(homed) =>
      var t := s.(vals := Written(cat, s.vals, ch, kv));
      Outcome(if homed then SetLatch(t, s.latch.(homeRequired := false)) else t,
              Applied(cat, ch, kv), WriteChannels(cat, s, ch, kv), WriteChannels(cat, s, ch, kv) != {})
  }

  /** The trials and their marks after a carried-out intent. */
  function Settle(cat: Catalog, before: map<Loc, Val>, o: Outcome, sid: nat, ch: nat, kv: map<nat, IVal>, trial: bool): (r: Outcome)
    requires Fits(cat, o.s.vals)
    ensures Fits(cat, r.s.vals)
  {
    var t := o.s.(trials := Settled(cat, before, o.s.trials, sid, ch, kv, trial));
    Outcome(Masked(cat, t), o.kv, o.changed + MaskChannels(cat, t), o.config)
  }

  function Perform(cat: Catalog, s: State, sid: nat, ch: nat, kv: map<nat, IVal>, trial: bool, plan: Plan): (o: Outcome)
    requires Fits(cat, s.vals) && !plan.Refuse?
    ensures Fits(cat, o.s.vals)
  {
    var o := Enact(cat, s, sid, ch, kv, plan);
    if plan.EndAll? || !cat.TrialsOn() then o else Settle(cat, s.vals, o, sid, ch, kv, trial)
  }

  function Bumped(s: State, config: bool): State {
    if config then s.(cfgGen := (s.cfgGen + 1) % 0x1_0000) else s
  }

  /** What the ECHO carries of an applied value: a secret only that it was set. */
  function EchoValue(f: SchemaField, v: IVal): IVal {
    if f.secret then IBool(true) else v
  }

  function EchoApplied(e: Entry, kv: map<nat, IVal>): map<nat, IVal>
    requires e.IntentEntry?
  {
    map k | k in kv && FieldByKey(e.schema, k).Some? :: EchoValue(FieldByKey(e.schema, k).value, kv[k])
  }

  /** Encoding the ECHO throws without an intent id, or on a number it cannot carry. */
  predicate EchoThrows(e: Entry, id: Option<nat>, kv: map<nat, IVal>)
    requires e.IntentEntry?
  {
    id.None? || exists k :: k in kv && FieldByKey(e.schema, k).Some? && !EchoEncodable(FieldByKey(e.schema, k).value, kv[k])
  }

  /** The ring keeps the newest RING echoes. */
  function Pushed(ring: seq<Echo>, e: Echo): seq<Echo> {
    if |ring| >= RING then ring[|ring| + 1 - RING..] + [e] else ring + [e]
  }

  datatype Step = Step(s: State, reply: Reply)

  /** The answer to a carried-out intent. */
  function Answered(b: State, sid: nat, e: Entry, id: Option<nat>, o: Outcome): Step
    requires e.IntentEntry?
  {
    if EchoThrows(e, id, o.kv) then Step(b, ThrownReply) // refused as MALFORMED after it acted
    else
      var echo := Echo(b.cfgGen, id.value, EchoApplied(e, o.kv));
      Step(Show(WithEcho(b, sid, echo), o.changed), EchoReply(echo))
  }

  function Followed(cat: Catalog, s: State, sid: nat, e: Entry, kv: map<nat, IVal>, id: Option<nat>, trial: bool, plan: Plan): (r: Step)
    requires Fits(cat, s.vals) && e.IntentEntry?
    ensures Fits(cat, r.s.vals)
  {
    if plan.Refuse? then Step(s, NackReply(plan.code))
    else
      var o := Perform(cat, s, sid, e.id, kv, trial, plan);
      Answered(Bumped(o.s, o.config), sid, e, id, o)
  }

  /** Whether the intent is a trial write. */
  predicate OnTrial(cat: Catalog, m: Intent) {
    cat.TrialsOn() && m.trial
  }

  function OnIntent(cat: Catalog, s: State, sid: nat, m: Intent): (r: Step)
    requires Fits(cat, s.vals) && sid in s.conns
    ensures Fits(cat, r.s.vals)
  {
    match GateOf(cat, s.conns[sid], m)
    case Stop(code) => Step(s, NackReply(code))
    case Replay(echo) => Step(s, EchoReply(echo))
    case Pass(e, kv) =>
      Followed(cat, s, sid, e, kv, m.id, OnTrial(cat, m), PlanOf(cat, s, sid, e, kv, OnTrial(cat, m)))
  }

  function WithEcho(s: State, sid: nat, echo: Echo): State {
    if sid in s.conns then
      s.(conns := s.conns[sid := s.conns[sid].(ring := Pushed(s.conns[sid].ring, echo))])
    else s
  }

  // ---- the session plane -------------------------------------------------------------------------------------

  predicate Grantable(cat: Catalog, roles: nat, ch: nat) {
    match cat.Find(ch)
    case None => false
    case Some(e) => (e.StateEntry? || (e.OtherEntry? && e.subscribable)) && e.access <= roles
  }

  /** The wishes that are granted, in order. */
  function Granted(cat: Catalog, roles: nat, wishes: seq<nat>): seq<nat> {
    if wishes == [] then []
    else (if Grantable(cat, roles, wishes[0]) then [wishes[0]] else []) + Granted(cat, roles, wishes[1..])
  }

  function Members(s: seq<nat>): set<nat> {
    set x | x in s
  }

  /** A connection after STATE of all its channels in `chs` is pushed to it alone. */
  function Pushed1(c: Conn, vals: map<Loc, Val>, latch: Latch, chs: set<nat>): Conn {
    var d := Shown(c, vals, chs);
    if CH_SAFETY in chs then ShownLatch(d, latch) else d
  }

  datatype Event =
    | Open(sid: nat, roles: nat)
    | Hello(sid: nat, etagMatches: bool, wishes: seq<nat>)
    | CatalogReady(sid: nat)
    | Subscribe(sid: nat, wishes: seq<nat>)
    | Unsubscribe(sid: nat, chs: seq<nat>)
    | IntentFrame(sid: nat, m: Intent)
    | EstopFrame
    | Close(sid: nat)

  function SetConn(s: State, sid: nat, c: Conn): State {
    s.(conns := s.conns[sid := c])
  }

  const MAX_SUBSCRIPTIONS_PER_FRAME := 16

  function OnHello(cat: Catalog, s: State, sid: nat, etagMatches: bool, wishes: seq<nat>): State
    requires sid in s.conns
  {
    var granted := Members(Granted(cat, s.conns[sid].roles, wishes));
    var c := s.conns[sid].(ready := etagMatches, subs := granted, ring := [], view := map[], latchView := None);
    SetConn(s, sid, Pushed1(c, s.vals, s.latch, granted))
  }

  function OnSubscribe(cat: Catalog, s: State, sid: nat, wishes: seq<nat>): State
    requires sid in s.conns
  {
    if |wishes| > MAX_SUBSCRIPTIONS_PER_FRAME then s
    else
      var granted := Members(Granted(cat, s.conns[sid].roles, wishes));
      var c := s.conns[sid].(subs := s.conns[sid].subs + granted);
      SetConn(s, sid, Pushed1(c, s.vals, s.latch, granted))
  }

  function OnCatalogReady(s: State, sid: nat): State
    requires sid in s.conns
  {
    var c := s.conns[sid];
    if c.ready then s else SetConn(s, sid, Pushed1(c.(ready := true), s.vals, s.latch, c.subs))
  }

  /** A socket's close reverts its trials. */
  function OnClose(cat: Catalog, s: State, sid: nat): (r: State)
    requires Fits(cat, s.vals)
    ensures Fits(cat, r.vals)
  {
    var t := EndTrials(cat, s.(conns := s.conns - {sid}), sid, false);
    Show(Bumped(t.s, t.moved), t.changed)
  }

  /** One event; frames of a connection that is not open are never received. */
  function Next(cat: Catalog, s: State, ev: Event): (r: State)
    requires Fits(cat, s.vals)
    ensures Fits(cat, r.vals)
  {
    match ev
    case Open(sid, roles) =>
      if sid in s.conns then s else SetConn(s, sid, Conn(false, roles, {}, [], map[], None))
    case Hello(sid, etagMatches, wishes) => if sid in s.conns then OnHello(cat, s, sid, etagMatches, wishes) else s
    case CatalogReady(sid) => if sid in s.conns then OnCatalogReady(s, sid) else s
    case Subscribe(sid, wishes) => if sid in s.conns then OnSubscribe(cat, s, sid, wishes) else s
    case Unsubscribe(sid, chs) =>
      if sid in s.conns then SetConn(s, sid, s.conns[sid].(subs := s.conns[sid].subs - Members(chs))) else s
    case IntentFrame(sid, m) => if sid in s.conns then OnIntent(cat, s, sid, m).s else s
    case EstopFrame => LatchEstop(cat, s)
    case Close(sid) => if sid in s.conns then OnClose(cat, s, sid) else s
  }

  /** A run: every state follows from the one before by its event. */
  ghost predicate Trace(cat: Catalog, states: seq<State>, evs: seq<Event>) {
    && |states| == |evs| + 1
    && (forall k :: 0 <= k < |states| ==> Fits(cat, states[k].vals))
    && (forall k :: 0 <= k < |evs| ==> states[k + 1] == Next(cat, states[k], evs[k]))
  }
}
