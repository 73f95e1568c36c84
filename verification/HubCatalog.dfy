/** What the in-page hub reads from its catalog (clients/js/localhub.js, clients/js/catalog.js). */
module HubCatalog {
  import opened Bytes
  import opened Packed
  import PackedWrite

  const CH_SAFETY := 0x0003
  const CH_SAFETY_INTENTS := 0x0005
  const CH_SETTINGS_TRIAL := 0x0016

  // Access tiers.
  const WATCH := 0
  const CONTROL := 1

  /**
   * What a layout field stands for; a source is a generator that drives the machine while nonzero.
   * `init` is what a fresh snapshot is given: the default, or every bit set for `meta.enabled_mask`.
   */
  datatype Role = NoRole | Source | TrialMark

  datatype LayoutField = LayoutField(
    f: Field, role: Role, key: Option<nat>, secret: bool, min: Option<real>, max: Option<real>, init: Option<Val>)

  datatype CborKind = UIntT | IntT | F32 | BoolT | TStr | BStr

  /** Roles of INTENT schema fields: none, an `action.*`, one the hub reads, or any other. */
  datatype Action = Plain | StoreAct | HomeAct | OtherAct | CommandPosition | StoreSlot | StoreName | StoreItem | OtherRole

  datatype SchemaField = SchemaField(
    key: nat, kind: CborKind, act: Action, options: Option<nat>, access: Option<nat>,
    optionAccess: Option<seq<nat>>, secret: bool, min: Option<real>, max: Option<real>)

  datatype StoreDesc = StoreDesc(storeId: nat, capacity: nat, kind: seq<byte>, perItemMax: Option<nat>, nameMax: Option<nat>)

  datatype Entry =
    | StateEntry(id: nat, access: nat, layout: seq<LayoutField>, setting: Option<nat>, storeId: Option<nat>)
    | IntentEntry(id: nat, access: nat, schema: seq<SchemaField>, storeId: Option<nat>)
    | StoreEntry(id: nat, access: nat, store: StoreDesc)
    | OtherEntry(id: nat, access: nat, subscribable: bool)

  /** A place in a retained snapshot: a STATE channel and a field of its layout. */
  datatype Loc = Loc(ch: nat, i: nat)

  /** A setting: an INTENT channel and a key of its schema. */
  datatype Setting = Setting(ch: nat, key: nat)

  datatype Catalog = Catalog(entries: seq<Entry>, cutsPower: bool, single: PackedWrite.ToSingle) {

    function Find(id: nat): Option<Entry> {
      FindIn(entries, id)
    }

    predicate TrialsOn() {
      Find(CH_SETTINGS_TRIAL).Some?
    }

    /** Every place a snapshot holds a value. */
    function Locs(): set<Loc> {
      set e, i | e in entries && e.StateEntry? && 0 <= i < |e.layout| :: Loc(e.id, i)
    }

    predicate HasLoc(l: Loc) {
      Find(l.ch).Some? && Find(l.ch).value.StateEntry? && l.i < |Find(l.ch).value.layout|
    }

    function StateAt(l: Loc): Entry
      requires HasLoc(l)
    {
      Find(l.ch).value
    }

    function At(l: Loc): LayoutField
      requires HasLoc(l)
    {
      Find(l.ch).value.layout[l.i]
    }

    predicate IsSource(l: Loc) {
      HasLoc(l) && At(l).role == Source
    }

    /** The setting a place mirrors, if the catalog names one. */
    function SettingOf(l: Loc): Option<Setting> {
      if HasLoc(l) && StateAt(l).setting.Some? && At(l).key.Some?
      then Some(Setting(StateAt(l).setting.value, At(l).key.value)) else None
    }

    /** The first field of its layout with its key: the one an intent writes. */
    predicate IsTarget(l: Loc, st: Setting) {
      SettingOf(l) == Some(st) && forall j :: 0 <= j < l.i ==> StateAt(l).layout[j].key != Some(st.key)
    }

    /** Distinct ids, known field types; the safety channel's snapshot is kept apart as a latch. */
    predicate WellFormed() {
      && (forall i, j :: 0 <= i < j < |entries| ==> entries[i].id != entries[j].id)
      && (forall e, k :: e in entries && e.StateEntry? && 0 <= k < |e.layout| ==> Known(e.layout[k].f.kind))
      && (forall e :: e in entries && e.StateEntry? ==> e.id != CH_SAFETY)
    }

    /**
     * What the hub relies on but does not check: the fields it derives are neither settings nor
     * sources, a source is a number, and zero is the float of four zero bytes.
     */
    predicate Apart() {
      && (forall e, k :: e in entries && e.StateEntry? && 0 <= k < |e.layout| ==> FieldApart(e, e.layout[k]))
      && single(0.0) == NullSingle()
    }

    /** Every entry is the one found by its id. */
    lemma Finds(n: nat)
      requires WellFormed() && n < |entries|
      ensures Find(entries[n].id) == Some(entries[n])
    {
      FindsIt(entries, entries[n]);
    }

    /** A place is one the catalog has, and its field's type is known. */
    lemma Placed(l: Loc)
      requires WellFormed()
      ensures l in Locs() <==> HasLoc(l)
      ensures HasLoc(l) ==> Known(At(l).f.kind) && StateAt(l) in entries && StateAt(l).id == l.ch
    {
      FoundIn(entries, l.ch);
      if l in Locs() {
        var e, i :| e in entries && e.StateEntry? && 0 <= i < |e.layout| && Loc(e.id, i) == l;
        FindsIt(entries, e);
      }
    }
  }

  predicate RosterName(name: string) {
    name == "generation" || name == "count" || name == "capacity"
  }

  predicate FieldApart(e: Entry, lf: LayoutField)
    requires e.StateEntry?
  {
    && (lf.role == TrialMark ==> lf.key.None?)
    && (e.storeId.Some? && RosterName(lf.f.name) ==> lf.key.None? && lf.role == NoRole)
    && (lf.role == Source ==> !IsStr(lf.f.kind))
  }

  function FindIn(entries: seq<Entry>, id: nat): Option<Entry> {
    if entries == [] then None
    else if entries[0].id == id then Some(entries[0])
    else FindIn(entries[1..], id)
  }

  lemma {:induction false} FoundIn(entries: seq<Entry>, id: nat)
    ensures FindIn(entries, id).Some? ==> FindIn(entries, id).value in entries && FindIn(entries, id).value.id == id
  {
    if entries != [] && entries[0].id != id {
      FoundIn(entries[1..], id);
    }
  }

  lemma {:induction false} FindsIt(entries: seq<Entry>, e: Entry)
    requires e in entries && forall i, j :: 0 <= i < j < |entries| ==> entries[i].id != entries[j].id
    ensures FindIn(entries, e.id) == Some(e)
  {
    if entries[0] != e {
      var rest := entries[1..];
      assert forall i :: 0 <= i < |rest| ==> rest[i] == entries[i + 1];
      var k :| 0 < k < |entries| && entries[k] == e;
      assert rest[k - 1] == e;
      FindsIt(rest, e);
    }
  }

  // ---- schemas ---------------------------------------------------------------------------

  /** `schemaByKey(entry).get(key)`: the last field with the key. */
  function FieldByKey(schema: seq<SchemaField>, key: nat): Option<SchemaField> {
    if schema == [] then None
    else
      var later := FieldByKey(schema[1..], key);
      if later.Some? then later else if schema[0].key == key then Some(schema[0]) else None
  }

  /** The first field with this role. */
  function FirstAct(schema: seq<SchemaField>, act: Action): Option<SchemaField> {
    if schema == [] then None
    else if schema[0].act == act then Some(schema[0])
    else FirstAct(schema[1..], act)
  }

  /** The key of the first field that lists options. */
  function OptionKey(schema: seq<SchemaField>): Option<nat> {
    if schema == [] then None
    else if schema[0].options.Some? then Some(schema[0].key)
    else OptionKey(schema[1..])
  }

  predicate IsVerb(act: Action) {
    act == StoreAct || act == HomeAct || act == OtherAct
  }

  /** A value an INTENT carries; the last stands for anything a field cannot take. */
  datatype IVal = INum(r: real) | IBool(on: bool) | IText(b: seq<byte>) | IBytes(b: seq<byte>) | IOther

  predicate Whole(r: real) {
    r == r.Floor as real
  }

  function ClampTo(min: Option<real>, max: Option<real>, r: real): real {
    var low := if min.Some? && r < min.value then min.value else r;
    if max.Some? && low > max.value then max.value else low
  }

  function ClampVal(min: Option<real>, max: Option<real>, v: IVal): IVal {
    if v.INum? then INum(ClampTo(min, max, v.r)) else v
  }

  /** `coerce`: None refuses. */
  function Coerced(f: SchemaField, v: IVal): Option<IVal> {
    match f.kind
    case BoolT => if v.IBool? then Some(v) else None
    case TStr => if v.IText? then Some(v) else None
    case BStr => if v.IBytes? then Some(v) else None
    case _ =>
      if !v.INum? || (f.kind != F32 && !Whole(v.r)) then None
      else if f.options.Some? && (v.r < 0.0 || v.r >= f.options.value as real) then None
      else Some(INum(ClampTo(f.min, f.max, if f.kind == UIntT && v.r < 0.0 then 0.0 else v.r)))
  }

  function Max(a: nat, b: nat): nat {
    if a < b then b else a
  }

  function MaxOf(s: seq<nat>): nat {
    if s == [] then 0 else Max(s[0], MaxOf(s[1..]))
  }

  /** `optionAccessFor`: the entry's floor raised by the field's access and the option's. */
  function NeedFor(entry: Entry, f: SchemaField, v: IVal): nat {
    var need := if f.access.Some? then Max(entry.access, f.access.value) else entry.access;
    if f.optionAccess.None? || !v.INum? then need
    else
      var a := f.optionAccess.value;
      if Whole(v.r) && 0 <= v.r.Floor < |a| then Max(need, a[v.r.Floor]) else Max(need, MaxOf(a))
  }

  /** The value as a snapshot writer takes it. */
  function AsVal(v: IVal): Val {
    match v
    case INum(r) => Num(r)
    case IBool(on) => Flag(on)
    case IText(b) => Text(b)
    case IBytes(b) => Text([])
    case IOther => Num(0.0)
  }

  function NullSingle(): Quad {
    Quad(0, 0, 0, 0)
  }

  /** The float is 0 or -0; the last byte is the highest. */
  predicate IsZero(q: Quad) {
    q.b0 == 0 && q.b1 == 0 && q.b2 == 0 && q.b3 % 128 == 0
  }

  predicate IsNaN(q: Quad) {
    q.b3 % 128 == 127 && q.b2 >= 128 && !(q.b2 == 128 && q.b1 == 0 && q.b0 == 0)
  }

  /** JavaScript truth of a snapshot value. */
  predicate Truthy(v: Val) {
    match v
    case Num(r) => r != 0.0
    case Flag(on) => on
    case Text(b) => b != []
    case Single(q) => !IsZero(q) && !IsNaN(q)
  }

  /** JavaScript truth of a value an intent carries. */
  predicate Says(v: IVal) {
    match v
    case INum(r) => r != 0.0
    case IBool(on) => on
    case IText(b) => b != []
    case IBytes(_) => true
    case IOther => true
  }

  const MAX_SAFE := 9007199254740991.0 // 2^53 - 1

  /** Can the ECHO carry this applied value? `head` throws on a number it cannot send exactly. */
  predicate EchoEncodable(f: SchemaField, v: IVal) {
    f.secret || !v.INum? ||
    match f.kind
    case UIntT => v.r <= 4294967295.0 || (Whole(v.r) && v.r <= MAX_SAFE)
    case IntT =>
      if v.r >= 0.0 then v.r <= 4294967295.0 || (Whole(v.r) && v.r <= MAX_SAFE)
      else -1.0 - v.r <= 4294967295.0 || (Whole(v.r) && -1.0 - v.r <= MAX_SAFE)
    case _ => true
  }
}
