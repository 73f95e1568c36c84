/** How store operations are answered (clients/js/localhub.js), in the numbers of the registry. */
module HubStoreOps {
  import opened Bytes
  import opened Packed
  import opened HubCatalog
  import opened Hub
  import opened HubSteps
  import opened HubControl
  import opened HubRosters
  import opened HubStores
  import opened HubAccess
  import opened HubMoves
  import Cbor

  // ---- stores --------------------------------------------------------------------------------------

  predicate IsPlain(f: SchemaField, kind: CborKind) {
    f.act == Plain && f.kind == kind
  }

  lemma {:induction false} FirstActIs(schema: seq<SchemaField>, act: Action, n: nat)
    ensures n < |schema| && schema[n].act == act && (forall j :: 0 <= j < n ==> schema[j].act != act) ==>
              FirstAct(schema, act) == Some(schema[n])
    ensures FirstAct(schema, act).Some? <==> exists j :: 0 <= j < |schema| && schema[j].act == act
    decreases |schema|
  {
    if schema != [] {
      var rest := schema[1..];
      assert forall j :: 0 < j < |schema| ==> schema[j] == rest[j - 1];
      FirstActIs(rest, act, if n > 0 then n - 1 else 0);
      if FirstAct(rest, act).Some? {
        var j :| 0 <= j < |rest| && rest[j].act == act;
        assert schema[j + 1].act == act;
      }
    }
  }

  lemma {:induction false} FirstActAt(schema: seq<SchemaField>, act: Action) returns (n: nat)
    requires exists j :: 0 <= j < |schema| && schema[j].act == act
    ensures n < |schema| && schema[n].act == act && forall j :: 0 <= j < n ==> schema[j].act != act
    decreases |schema|
  {
    if schema[0].act == act {
      n := 0;
    } else {
      var j :| 0 <= j < |schema| && schema[j].act == act;
      assert schema[1..][j - 1].act == act;
      var m := FirstActAt(schema[1..], act);
      n := m + 1;
      assert forall j :: 0 < j < n ==> schema[j] == schema[1..][j - 1];
    }
  }

  ghost predicate NonePlain(schema: seq<SchemaField>, kind: CborKind) {
    forall j :: 0 <= j < |schema| ==> !IsPlain(schema[j], kind)
  }

  ghost predicate OnlyAt(schema: seq<SchemaField>, n: nat, kind: CborKind) {
    n < |schema| && IsPlain(schema[n], kind) && NonePlain(schema[..n], kind) && NonePlain(schema[n + 1..], kind)
  }

  lemma {:induction false} NoPlains(schema: seq<SchemaField>, kind: CborKind)
    ensures NonePlain(schema, kind) <==> Plains(schema, kind) == []
    decreases |schema|
  {
    if schema != [] {
      NoPlains(schema[1..], kind);
      assert forall j :: 0 < j < |schema| ==> schema[j] == schema[1..][j - 1];
      assert forall j :: 0 <= j < |schema[1..]| ==> schema[1..][j] == schema[j + 1];
    }
  }

  lemma {:induction false} OnePlain(schema: seq<SchemaField>, n: nat, kind: CborKind)
    requires OnlyAt(schema, n, kind)
    ensures Plains(schema, kind) == [schema[n]]
    decreases n
  {
    if n == 0 {
      NoPlains(schema[1..], kind);
    } else {
      var rest := schema[1..];
      assert schema[..n][0] == schema[0];
      assert schema[..n][1..] == rest[..n - 1] && rest[n..] == schema[n + 1..];
      PlainRest(schema[..n], kind);
      OnePlain(rest, n - 1, kind);
    }
  }

  lemma PlainRest(schema: seq<SchemaField>, kind: CborKind)
    requires schema != []
    ensures NonePlain(schema, kind) <==> !IsPlain(schema[0], kind) && NonePlain(schema[1..], kind)
  {
    NoPlains(schema, kind);
    NoPlains(schema[1..], kind);
  }

  lemma {:induction false} FindPlain(schema: seq<SchemaField>, kind: CborKind) returns (n: nat)
    requires |Plains(schema, kind)| == 1
    ensures OnlyAt(schema, n, kind)
    decreases |schema|
  {
    if IsPlain(schema[0], kind) {
      n := 0;
      NoPlains(schema[1..], kind);
    } else {
      var m := FindPlain(schema[1..], kind);
      n := m + 1;
      assert schema[..n][0] == schema[0];
      assert schema[..n][1..] == schema[1..][..m] && schema[1..][m + 1..] == schema[n + 1..];
      PlainRest(schema[..n], kind);
    }
  }

  /** The schema has a field with the role. */
  ghost predicate HasRole(schema: seq<SchemaField>, act: Action) {
    exists j :: 0 <= j < |schema| && schema[j].act == act
  }

  /** The field that carries this: the first with the role, or without one the only plain field of the kind. */
  ghost predicate Serves(schema: seq<SchemaField>, n: nat, act: Action, kind: CborKind) {
    && n < |schema|
    && if HasRole(schema, act) then FirstAt(schema, n, act) else OnlyAt(schema, n, kind)
  }

  ghost predicate FirstAt(schema: seq<SchemaField>, n: nat, act: Action) {
    n < |schema| && schema[n].act == act && forall j :: 0 <= j < n ==> schema[j].act != act
  }

  lemma BoundByRole(schema: seq<SchemaField>, act: Action, kind: CborKind, n: nat)
    requires HasRole(schema, act)
    ensures FirstAt(schema, n, act) ==> n < |schema| && Bound(schema, act, kind) == Some(schema[n])
    ensures exists m: nat :: FirstAt(schema, m, act)
  {
    hide Plains;
    FirstActIs(schema, act, n);
    var m := FirstActAt(schema, act);
    assert FirstAt(schema, m, act);
  }

  lemma BoundByKind(schema: seq<SchemaField>, act: Action, kind: CborKind, n: nat)
    requires !HasRole(schema, act)
    ensures OnlyAt(schema, n, kind) ==> n < |schema| && Bound(schema, act, kind) == Some(schema[n])
    ensures Bound(schema, act, kind).Some? ==> exists m: nat :: OnlyAt(schema, m, kind)
  {
    hide Plains, OnlyAt, FirstAct;
    FirstActIs(schema, act, 0);
    if OnlyAt(schema, n, kind) {
      OnlyIn(schema, n, kind);
      OnePlain(schema, n, kind);
    }
    if |Plains(schema, kind)| == 1 {
      var m := FindPlain(schema, kind);
    }
  }

  lemma BoundIs(schema: seq<SchemaField>, act: Action, kind: CborKind)
    ensures forall n: nat :: Serves(schema, n, act, kind) ==> n < |schema| && Bound(schema, act, kind) == Some(schema[n])
    ensures Bound(schema, act, kind).Some? ==> exists n: nat :: Serves(schema, n, act, kind)
  {
    hide Bound, OnlyAt, FirstAt, HasRole;
    forall n: nat
      ensures Serves(schema, n, act, kind) ==> n < |schema| && Bound(schema, act, kind) == Some(schema[n])
    {
      if HasRole(schema, act) {
        BoundByRole(schema, act, kind, n);
      } else {
        BoundByKind(schema, act, kind, n);
      }
    }
    if HasRole(schema, act) {
      BoundByRole(schema, act, kind, 0);
      var m: nat :| FirstAt(schema, m, act);
      BoundByRole(schema, act, kind, m);
      assert Serves(schema, m, act, kind);
    } else if Bound(schema, act, kind).Some? {
      BoundByKind(schema, act, kind, 0);
      var m: nat :| OnlyAt(schema, m, kind);
      BoundByKind(schema, act, kind, m);
      assert Serves(schema, m, act, kind);
    }
  }

  lemma OnlyIn(schema: seq<SchemaField>, n: nat, kind: CborKind)
    requires OnlyAt(schema, n, kind)
    ensures n < |schema|
  {
  }

  /** What the intent says in the field that carries this, if there is one. */
  ghost predicate Said(e: Entry, kv: map<nat, IVal>, act: Action, kind: CborKind, v: Option<IVal>)
    requires e.IntentEntry?
  {
    && (v.Some? ==> exists n: nat :: Serves(e.schema, n, act, kind) && n < |e.schema| && e.schema[n].key in kv)
    && forall n: nat :: Serves(e.schema, n, act, kind) && n < |e.schema| && e.schema[n].key in kv ==> v == Some(kv[e.schema[n].key])
  }

  lemma SaidIs(e: Entry, kv: map<nat, IVal>, act: Action, kind: CborKind)
    requires e.IntentEntry?
    ensures Said(e, kv, act, kind, Get(kv, Bound(e.schema, act, kind)))
  {
    hide Serves, Bound;
    BoundIs(e.schema, act, kind);
  }

  /** A limit of zero is none. */
  predicate Over(limit: Option<nat>, n: nat) {
    limit.Some? && limit.value > 0 && n > limit.value
  }

  datatype Verdict = No(code: Nack) | Leave(items: map<nat, Item>)

  /** What becomes of the items of a store by an operation: 1 saves, 2 loads, 3 deletes, 4 renames. */
  function Judged(items: map<nat, Item>, d: StoreDesc, slot: Option<IVal>, op: Option<IVal>, name: Option<IVal>, payload: Option<seq<byte>>): Verdict {
    if slot.None? || !slot.value.INum? || slot.value.r != slot.value.r.Floor as real || !(0 <= slot.value.r.Floor < d.capacity) then
      No(InvalidValue)
    else
      var n := slot.value.r.Floor;
      var k := 256 * d.storeId + n;
      var called := if name.Some? && name.value.IText? then name.value.b else if k in items then items[k].name else [];
      if Over(d.nameMax, |called|) then No(InvalidValue)
      else if op == Some(INum(1.0)) then
        if payload.None? then No(Malformed)
        else if Over(d.perItemMax, |payload.value|) then No(InvalidValue)
        else Leave(items[k := Item(n, called, d.kind, payload.value)])
      else if op == Some(INum(2.0)) then if k in items then Leave(items) else No(InvalidValue)
      else if op == Some(INum(3.0)) then Leave(items - {k})
      else if op == Some(INum(4.0)) then
        if k in items then Leave(items[k := Item(n, called, d.kind, items[k].payload)]) else No(InvalidValue)
      else No(UnsupportedOp)
  }

  /** The store an entry names: the first of the catalog with its id. */
  ghost predicate Describes(entries: seq<Entry>, sid: nat, d: StoreDesc) {
    exists n :: 0 <= n < |entries| && FirstStore(entries, n, sid) && entries[n].store == d
  }

  ghost predicate FirstStore(entries: seq<Entry>, n: nat, sid: nat)
    requires n < |entries|
  {
    && entries[n].StoreEntry? && entries[n].store.storeId == sid
    && forall j :: 0 <= j < n ==> !(entries[j].StoreEntry? && entries[j].store.storeId == sid)
  }

  lemma {:induction false} FirstStoreIs(entries: seq<Entry>, n: nat, sid: nat)
    requires n < |entries| && FirstStore(entries, n, sid)
    ensures StoreIn(entries, sid) == Some(entries[n])
    decreases |entries|
  {
    if n > 0 {
      assert forall j :: 0 < j < |entries| ==> entries[j] == entries[1..][j - 1];
      FirstStoreIs(entries[1..], n - 1, sid);
    }
  }

  lemma {:induction false} NoStoreIs(entries: seq<Entry>, sid: nat)
    requires forall j :: 0 <= j < |entries| ==> !(entries[j].StoreEntry? && entries[j].store.storeId == sid)
    ensures StoreIn(entries, sid).None?
    decreases |entries|
  {
    if entries != [] {
      NoStoreIs(entries[1..], sid);
    }
  }

  lemma SlotVerdict(items: map<nat, Item>, d: StoreDesc, n: nat, e: Entry, kv: map<nat, IVal>)
    requires e.IntentEntry? && SlotSaid(e, kv) == Some(INum(n as real)) && n < d.capacity
    ensures var plan, v := PlanSlot(items, d, n, e, kv), Judged(items, d, SlotSaid(e, kv), OpSaid(e, kv), NameSaid(e, kv), PayloadSaid(e, kv));
            && (v.No? ==> plan == Refuse(v.code))
            && (v.Leave? ==> plan == if OpSaid(e, kv) == Some(INum(2.0)) then Keep else Leaves(v.items, d))
            && (v.Leave? && OpSaid(e, kv) == Some(INum(2.0)) ==> v.items == items)
  {
    hide Bound, FirstAct, SavedPayload, Get;
    assert (n as real).Floor == n;
  }

  lemma StoreVerdict(cat: Catalog, items: map<nat, Item>, e: Entry, kv: map<nat, IVal>, d: StoreDesc)
    requires e.IntentEntry? && e.storeId.Some? && Describes(cat.entries, e.storeId.value, d)
    ensures var plan, v := PlanStore(cat, items, e, kv), Judged(items, d, SlotSaid(e, kv), OpSaid(e, kv), NameSaid(e, kv), PayloadSaid(e, kv));
            && (v.No? ==> plan == Refuse(v.code))
            && (v.Leave? ==> plan == if OpSaid(e, kv) == Some(INum(2.0)) then Keep else Leaves(v.items, d))
            && (v.Leave? && OpSaid(e, kv) == Some(INum(2.0)) ==> v.items == items)
  {
    hide Bound, FirstAct, SavedPayload, Get, PlanSlot;
    var n :| 0 <= n < |cat.entries| && FirstStore(cat.entries, n, e.storeId.value) && cat.entries[n].store == d;
    FirstStoreIs(cat.entries, n, e.storeId.value);
    var slot := SlotSaid(e, kv);
    if slot.Some? && SlotFits(slot.value, d.capacity) {
      SlotVerdict(items, d, slot.value.r.Floor, e, kv);
    }
  }

  /** An intent that passes the gate and the trial rules, on a store operation. */
  ghost predicate AsksStore(cat: Catalog, s: State, ev: Event) {
    Arrives(cat, s, ev) && ev.m.value.Some?
    && var e := GateOf(cat, s.conns[ev.sid], ev.m).e;
       !HasOps(e) && e.id != 0x0016 && Carries(e, ev.m.value.value, StoreAct)
  }

  lemma StorePlanned(cat: Catalog, s: State, ev: Event)
    requires AsksStore(cat, s, ev)
    ensures var g := GateOf(cat, s.conns[ev.sid], ev.m);
            PlanOf(cat, s, ev.sid, g.e, g.kv, OnTrial(cat, ev.m)) == PlanStore(cat, s.items, g.e, g.kv)
  {
    hide GateOf, TrialRefusal, PlanSafety, PlanTrials, PlanStore, WriteRefusal, Has, Carries, HasOps, OpKey;
    var g, value := GateOf(cat, s.conns[ev.sid], ev.m), ev.m.value.value;
    PassKeys(cat, s.conns[ev.sid], ev.m);
    OutranksIs(g.e, value);
    CarriesIs(g.e, value, g.kv, StoreAct);
  }

  /** The answer and the state after an operation so judged. */
  predicate Answers(s: State, t: State, r: Step, d: StoreDesc, loads: bool, v: Verdict) {
    if v.No? then r == Step(s, NackReply(v.code))
    else
      var gen: int := if d.storeId in s.gens then s.gens[d.storeId] else 0;
      && !r.reply.NackReply? && t.items == v.items
      && t.gens == if loads then s.gens else s.gens[d.storeId := (gen + 1) % 65536]
  }

  /** What an operation is judged by. */
  function VerdictOn(items: map<nat, Item>, d: StoreDesc, e: Entry, kv: map<nat, IVal>): Verdict
    requires e.IntentEntry?
  {
    Judged(items, d, SlotSaid(e, kv), OpSaid(e, kv), NameSaid(e, kv), PayloadSaid(e, kv))
  }

  /**
   * A store operation that is admitted is answered by what it says and what the store holds: refused with
   * nothing changed, or carried out, leaving the items judged and the store's generation moved by one unless
   * it is a load.
   */
  lemma StoreAnswered(cat: Catalog, s: State, ev: Event, d: StoreDesc)
    requires Fits(cat, s.vals) && AsksStore(cat, s, ev)
    requires var e := GateOf(cat, s.conns[ev.sid], ev.m).e; e.storeId.Some? && Describes(cat.entries, e.storeId.value, d)
    ensures var g := GateOf(cat, s.conns[ev.sid], ev.m);
            Answers(s, Next(cat, s, ev), OnIntent(cat, s, ev.sid, ev.m), d, OpSaid(g.e, g.kv) == Some(INum(2.0)), VerdictOn(s.items, d, g.e, g.kv))
  {
    hide GateOf, PlanOf, PlanStore, Followed, Perform, TrialRefusal, Judged, SlotSaid, OpSaid, NameSaid, PayloadSaid, Describes,
         Carries, HasOps, Fits, Next, OneSlot;
    var g := GateOf(cat, s.conns[ev.sid], ev.m);
    StorePlanned(cat, s, ev);
    StoreVerdict(cat, s.items, g.e, g.kv, d);
    AnswerNoNack(cat, s, ev.sid, g.e, g.kv, ev.m.id, OnTrial(cat, ev.m), PlanOf(cat, s, ev.sid, g.e, g.kv, OnTrial(cat, ev.m)));
    NextItemsAre(cat, s, ev);
    NextItems(cat, s, ev);
  }

  /** Without a store of its id the operation is refused. */
  lemma StoreUnknown(cat: Catalog, s: State, ev: Event)
    requires Fits(cat, s.vals) && AsksStore(cat, s, ev)
    requires var e := GateOf(cat, s.conns[ev.sid], ev.m).e;
             forall j :: 0 <= j < |cat.entries| && cat.entries[j].StoreEntry? ==> e.storeId != Some(cat.entries[j].store.storeId)
    ensures OnIntent(cat, s, ev.sid, ev.m) == Step(s, NackReply(UnsupportedOp))
  {
    hide GateOf, PlanOf, Followed, TrialRefusal, Carries, HasOps, Fits, PlanSlot;
    var g := GateOf(cat, s.conns[ev.sid], ev.m);
    StorePlanned(cat, s, ev);
    if g.e.storeId.Some? {
      NoStoreIs(cat.entries, g.e.storeId.value);
    }
    AnswerNoNack(cat, s, ev.sid, g.e, g.kv, ev.m.id, OnTrial(cat, ev.m), PlanOf(cat, s, ev.sid, g.e, g.kv, OnTrial(cat, ev.m)));
  }

  // ---- what an intent says of a store ------------------------------------------------------------------

  /** The byte string under key 7 of a decoded document: the first there, and nothing for anything else. */
  ghost predicate Under7(ps: seq<Cbor.Pair>, p: seq<byte>) {
    if exists n :: 0 <= n < |ps| && ps[n].key == Cbor.UInt(Cbor.Num(7)) then
      exists n :: 0 <= n < |ps| && FirstUnder7(ps, n) && p == if ps[n].val.Bytes? then ps[n].val.b else []
    else p == []
  }

  ghost predicate FirstUnder7(ps: seq<Cbor.Pair>, n: nat)
    requires n < |ps|
  {
    ps[n].key == Cbor.UInt(Cbor.Num(7)) && forall j :: 0 <= j < n ==> ps[j].key != Cbor.UInt(Cbor.Num(7))
  }

  lemma {:induction false} PayloadFound(ps: seq<Cbor.Pair>)
    ensures Under7(ps, PayloadIn(ps))
    decreases |ps|
  {
    if ps != [] {
      var rest := ps[1..];
      assert forall j :: 0 < j < |ps| ==> ps[j] == rest[j - 1];
      if ps[0].key == Cbor.UInt(Cbor.Num(7)) {
        assert FirstUnder7(ps, 0);
      } else {
        PayloadFound(rest);
        if exists n :: 0 <= n < |rest| && rest[n].key == Cbor.UInt(Cbor.Num(7)) {
          var n :| 0 <= n < |rest| && FirstUnder7(rest, n) && PayloadIn(rest) == if rest[n].val.Bytes? then rest[n].val.b else [];
          assert ps[n + 1].key == Cbor.UInt(Cbor.Num(7)) && FirstUnder7(ps, n + 1);
        } else {
          assert forall n :: 0 <= n < |ps| ==> ps[n].key != Cbor.UInt(Cbor.Num(7));
        }
      }
    }
  }

  /** A payload as it is sent: bare, or in a document where the field has a role; none for a document that cannot be read. */
  ghost predicate PayloadOf(e: Entry, v: Option<IVal>, p: Option<seq<byte>>)
    requires e.IntentEntry?
  {
    if v.None? || !v.value.IBytes? then p == Some([])
    else if HasRole(e.schema, StoreItem) then
      var d := Cbor.Decoded(v.value.b, 0);
      if d.None? || !d.value.v.Map? then p.None? else p.Some? && Under7(d.value.v.pairs, p.value)
    else p == Some(v.value.b)
  }

  lemma PayloadIs(e: Entry, kv: map<nat, IVal>)
    requires e.IntentEntry?
    ensures PayloadOf(e, Get(kv, Bound(e.schema, StoreItem, BStr)), PayloadSaid(e, kv))
  {
    hide Plains, FirstAct, Cbor.Decoded, Under7;
    var v := Get(kv, Bound(e.schema, StoreItem, BStr));
    FirstActIs(e.schema, StoreItem, 0);
    RoleOrPlain(e.schema);
    if v.Some? && v.value.IBytes? {
      var d := Cbor.Decoded(v.value.b, 0);
      if d.Some? && d.value.v.Map? {
        PayloadFound(d.value.v.pairs);
      }
    }
  }

  lemma RoleOrPlain(schema: seq<SchemaField>)
    ensures var f := Bound(schema, StoreItem, BStr);
            f.Some? ==> (f.value.act == Plain <==> !HasRole(schema, StoreItem))
  {
    hide OnlyAt;
    FirstActIs(schema, StoreItem, 0);
    if HasRole(schema, StoreItem) {
      var n := FirstActAt(schema, StoreItem);
      FirstActIs(schema, StoreItem, n);
    } else if |Plains(schema, BStr)| == 1 {
      var n := FindPlain(schema, BStr);
      OnlyIn(schema, n, BStr);
      OnePlain(schema, n, BStr);
      assert IsPlain(schema[n], BStr) by { OnlyPlainAt(schema, n, BStr); }
    }
  }

  lemma OnlyPlainAt(schema: seq<SchemaField>, n: nat, kind: CborKind)
    requires OnlyAt(schema, n, kind)
    ensures n < |schema| && IsPlain(schema[n], kind)
  {
  }

  /** The operation, slot, name and payload of a store operation are said in the fields with those roles, or the only plain ones of their kinds. */
  lemma StoreSays(e: Entry, kv: map<nat, IVal>)
    requires e.IntentEntry? && HasRole(e.schema, StoreAct)
    ensures Said(e, kv, StoreAct, UIntT, OpSaid(e, kv))
    ensures Said(e, kv, StoreSlot, UIntT, SlotSaid(e, kv)) && Said(e, kv, StoreName, TStr, NameSaid(e, kv))
    ensures exists v :: Said(e, kv, StoreItem, BStr, v) && PayloadOf(e, v, PayloadSaid(e, kv))
  {
    hide OnlyPlain, Serves, PayloadOf, FirstAct;
    FirstActIs(e.schema, StoreAct, 0);
    SaidIs(e, kv, StoreAct, UIntT);
    SaidIs(e, kv, StoreSlot, UIntT);
    SaidIs(e, kv, StoreName, TStr);
    SaidIs(e, kv, StoreItem, BStr);
    PayloadIs(e, kv);
  }
}
