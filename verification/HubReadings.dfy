/** What an intent writes and what its ECHO says (clients/js/localhub.js), in the numbers of the catalog. */
module HubReadings {
  import opened Bytes
  import opened Packed
  import opened HubCatalog
  import opened Hub
  import opened HubPlaces
  import opened HubTrials
  import opened HubSteps
  import opened HubIntents
  import opened HubControl
  import opened HubAccess
  import opened HubMoves
  import Cbor

  // ---- as read -----------------------------------------------------------------------------------

  /** The hub has this for what was sent under the key. */
  ghost predicate Understood(e: Entry, sent: KV, kv: map<nat, IVal>)
    requires e.IntentEntry?
  {
    sent.key in kv && exists n: nat :: Names(e.schema, n, sent.key) && Fitting(e.schema[n], sent.v) && ReadsAs(e.schema[n], sent.v, kv[sent.key])
  }

  lemma {:induction false} SentFirst(value: seq<KV>, i: nat)
    requires i < |value| && DistinctKeys(value)
    ensures LookUp(value, value[i].key) == Some(value[i].v)
    decreases |value|
  {
    if i > 0 {
      assert forall j :: 0 <= j < |value| - 1 ==> value[1..][j] == value[j + 1];
      SentFirst(value[1..], i - 1);
    }
  }

  /** What passes the gate is, key by key, what was sent, as its field reads it. */
  lemma PassReads(cat: Catalog, c: Conn, m: Intent, i: nat)
    requires GateOf(cat, c, m).Pass? && m.value.Some? && DistinctKeys(m.value.value) && i < |m.value.value|
    ensures Understood(GateOf(cat, c, m).e, m.value.value[i], GateOf(cat, c, m).kv)
  {
    hide Exempt, EchoIn, Validated, Names, Fitting, ReadsAs, FieldByKey, Coerced, NeedFor, DistinctKeys;
    var g, sent := GateOf(cat, c, m), m.value.value[i];
    SentFirst(m.value.value, i);
    ValidatedIs(g.e, c.roles, m.value.value, map[], sent.key);
    var f := FieldByKey(g.e.schema, sent.key).value;
    CoercedIs(f, sent.v);
    NamesIs(g.e.schema, 0, sent.key);
    var n: nat :| Names(g.e.schema, n, sent.key);
    NamesIs(g.e.schema, n, sent.key);
    NamesIn(g.e.schema, n, sent.key);
  }

  // ---- as written --------------------------------------------------------------------------------

  /** The place an intent on `ch` writes for the key: the first of a layout that mirrors it. */
  ghost predicate Mirrors(cat: Catalog, l: Loc, ch: nat, key: nat) {
    exists e :: e in cat.entries && e.StateEntry? && e.id == l.ch && e.setting == Some(ch) && MirrorsIn(e.layout, l.i, key)
  }

  predicate MirrorsIn(layout: seq<LayoutField>, i: nat, key: nat) {
    i < |layout| && layout[i].key == Some(key) && forall j :: 0 <= j < i ==> layout[j].key != Some(key)
  }

  /** The field takes the value: a number bound by the field, anything else as it is. */
  predicate Fills(f: LayoutField, x: IVal, v: Val) {
    match x
    case INum(r) => v.Num? && BoundTo(f.min, f.max, r, v.r)
    case IBool(on) => v == Flag(on)
    case IText(b) => v == Text(b)
    case IBytes(_) => v == Text([])
    case IOther => v == Num(0.0)
  }

  lemma MirrorsIs(cat: Catalog, l: Loc, ch: nat, key: nat)
    requires cat.WellFormed()
    ensures Mirrors(cat, l, ch, key) <==> cat.SettingOf(l) == Some(Setting(ch, key)) && cat.IsTarget(l, Setting(ch, key))
    ensures Mirrors(cat, l, ch, key) ==> cat.HasLoc(l)
  {
    if Mirrors(cat, l, ch, key) {
      var e :| e in cat.entries && e.StateEntry? && e.id == l.ch && e.setting == Some(ch) && MirrorsIn(e.layout, l.i, key);
      FindsIt(cat.entries, e);
    }
    if cat.SettingOf(l) == Some(Setting(ch, key)) {
      FoundIn(cat.entries, l.ch);
    }
  }

  lemma StoreReads(cat: Catalog, ch: nat, kv: map<nat, IVal>, l: Loc, key: nat)
    requires cat.WellFormed() && cat.HasLoc(l)
    ensures Mirrors(cat, l, ch, key) && key in kv && !cat.At(l).secret ==>
              StoreAt(cat, ch, kv, l).Some? && Fills(cat.At(l), kv[key], StoreAt(cat, ch, kv, l).value)
    ensures StoreAt(cat, ch, kv, l).Some? ==> !cat.At(l).secret && exists k :: k in kv && Mirrors(cat, l, ch, k)
  {
    MirrorsIs(cat, l, ch, key);
    if Mirrors(cat, l, ch, key) && key in kv && kv[key].INum? {
      BoundIs(cat.At(l).min, cat.At(l).max, kv[key].r);
    }
    if StoreAt(cat, ch, kv, l).Some? {
      MirrorsIs(cat, l, ch, cat.SettingOf(l).value.key);
    }
  }

  /** The hub carries out a settings write. */
  ghost predicate WritesTo(cat: Catalog, s: State, ev: Event) {
    EffectOf(cat, s, ev).Does? && EffectOf(cat, s, ev).e.IntentEntry? && EffectOf(cat, s, ev).plan.Writes?
  }

  /**
   * A settings write that is carried out puts into every place that mirrors a key what was read for the
   * key, within the bounds of the place; secrets, and all other settings and sources, keep what they hold.
   */
  lemma WriteReads(cat: Catalog, s: State, ev: Event, l: Loc, key: nat)
    requires Fits(cat, s.vals) && cat.Apart() && WritesTo(cat, s, ev) && l in s.vals
    requires cat.IsSource(l) || cat.SettingOf(l).Some?
    ensures var x, t := EffectOf(cat, s, ev), Next(cat, s, ev);
            && l in t.vals && cat.HasLoc(l) && Known(cat.At(l).f.kind)
            && (Mirrors(cat, l, x.e.id, key) && key in x.kv && !cat.At(l).secret ==>
                 exists v :: Fills(cat.At(l), x.kv[key], v) && t.vals[l] == StoredAt(cat, l, v))
            && (cat.At(l).secret || (forall k :: k in x.kv ==> !Mirrors(cat, l, x.e.id, k)) ==> t.vals[l] == s.vals[l])
  {
    hide Next, Perform, EffectOf, Mirrors, Fills, StoredAt, StoreAt, cat.IsSource, cat.SettingOf, cat.Apart, Fits;
    var x := EffectOf(cat, s, ev);
    NextMachine(cat, s, ev);
    FitsPlace(cat, s.vals, l);
    FitsSame(cat, s.vals, Next(cat, s, ev).vals, l);
    PerformPlace(cat, s, x.sid, x.e.id, x.kv, x.trial, x.plan, l);
    StoreReads(cat, x.e.id, x.kv, l, key);
  }

  lemma FitsSame(cat: Catalog, a: map<Loc, Val>, b: map<Loc, Val>, l: Loc)
    requires Fits(cat, a) && Fits(cat, b) && l in a
    ensures l in b
  {
  }

  lemma FitsPlace(cat: Catalog, vals: map<Loc, Val>, l: Loc)
    requires Fits(cat, vals) && l in vals
    ensures cat.WellFormed() && cat.HasLoc(l) && Known(cat.At(l).f.kind)
  {
    cat.Placed(l);
  }

  // ---- as reported ---------------------------------------------------------------------------------

  /** The place is the last to mirror the key: of the entries that do, in the last. */
  ghost predicate LastMirrors(cat: Catalog, l: Loc, ch: nat, key: nat) {
    exists n :: 0 <= n < |cat.entries| && LastAt(cat.entries, n, l, ch, key)
  }

  ghost predicate LastAt(entries: seq<Entry>, n: nat, l: Loc, ch: nat, key: nat)
    requires n < |entries|
  {
    && entries[n].StateEntry? && entries[n].id == l.ch && entries[n].setting == Some(ch) && MirrorsIn(entries[n].layout, l.i, key)
    && forall k :: n < k < |entries| ==> NoMirror(entries[k], ch, key)
  }

  ghost predicate NoMirror(e: Entry, ch: nat, key: nat) {
    !e.StateEntry? || e.setting != Some(ch) || forall i :: 0 <= i < |e.layout| ==> e.layout[i].key != Some(key)
  }

  lemma {:induction false} LastIs(entries: seq<Entry>, n: nat, m: nat, l: Loc, ch: nat, key: nat)
    requires n < m <= |entries| && LastAt(entries, n, l, ch, key)
    ensures LastMirror(entries, m, ch, key) == Some(entries[n].layout[l.i])
    decreases m
  {
    if m > n + 1 {
      assert NoMirror(entries[m - 1], ch, key);
      LastIs(entries, n, m - 1, l, ch, key);
    }
  }

  lemma {:induction false} NoneIs(entries: seq<Entry>, m: nat, ch: nat, key: nat)
    requires m <= |entries| && forall k :: 0 <= k < m ==> NoMirror(entries[k], ch, key)
    ensures LastMirror(entries, m, ch, key).None?
    decreases m
  {
    if m > 0 {
      assert NoMirror(entries[m - 1], ch, key);
      NoneIs(entries, m - 1, ch, key);
    }
  }

  /** What the ECHO of a settings write says of a key is what its last place was given. */
  lemma AppliedIs(cat: Catalog, ch: nat, kv: map<nat, IVal>, l: Loc, key: nat)
    requires cat.WellFormed() && key in kv
    ensures LastMirrors(cat, l, ch, key) ==>
              cat.HasLoc(l) && WriteAt(cat, ch, kv, l) == Some(AsVal(Applied(cat, ch, kv)[key]))
    ensures (forall k :: 0 <= k < |cat.entries| ==> NoMirror(cat.entries[k], ch, key)) ==> Applied(cat, ch, kv)[key] == kv[key]
  {
    if LastMirrors(cat, l, ch, key) {
      var n :| 0 <= n < |cat.entries| && LastAt(cat.entries, n, l, ch, key);
      LastIs(cat.entries, n, |cat.entries|, l, ch, key);
      cat.Finds(n);
    } else if forall k :: 0 <= k < |cat.entries| ==> NoMirror(cat.entries[k], ch, key) {
      NoneIs(cat.entries, |cat.entries|, ch, key);
    }
  }

  /** Every key that passes the gate is a field's. */
  lemma {:induction false} ValidatedNamed(e: Entry, roles: nat, value: seq<KV>, sofar: map<nat, IVal>, k: nat)
    requires e.IntentEntry?
    ensures var v := Validated(e, roles, value, sofar); v.Good? && k in v.kv && k !in sofar ==> FieldByKey(e.schema, k).Some?
    decreases value
  {
    hide FieldByKey, Coerced, NeedFor;
    if value != [] {
      var f := FieldByKey(e.schema, value[0].key);
      if f.Some? && roles >= NeedFor(e, f.value, value[0].v) && Coerced(f.value, value[0].v).Some? {
        ValidatedNamed(e, roles, value[1..], sofar[value[0].key := Coerced(f.value, value[0].v).value], k);
      }
    }
  }

  lemma PassNamed(cat: Catalog, c: Conn, m: Intent)
    requires GateOf(cat, c, m).Pass?
    ensures GateOf(cat, c, m).e.IntentEntry?
    ensures forall k :: k in GateOf(cat, c, m).kv ==> FieldByKey(GateOf(cat, c, m).e.schema, k).Some?
  {
    hide Exempt, EchoIn, Validated, FieldByKey;
    forall k | k in GateOf(cat, c, m).kv
      ensures FieldByKey(GateOf(cat, c, m).e.schema, k).Some?
    {
      ValidatedNamed(GateOf(cat, c, m).e, c.roles, m.value.value, map[], k);
    }
  }

  /** The answer to an admitted intent, and what it did. */
  lemma EchoIs(cat: Catalog, s: State, sid: nat, m: Intent)
    requires Fits(cat, s.vals) && sid in s.conns && GateOf(cat, s.conns[sid], m).Pass? && OnIntent(cat, s, sid, m).reply.EchoReply?
    ensures var g, x := GateOf(cat, s.conns[sid], m), EffectOf(cat, s, IntentFrame(sid, m));
            && x.Does? && x == Does(sid, g.e, g.kv, OnTrial(cat, m), x.plan) && g.e.IntentEntry?
            && OnIntent(cat, s, sid, m).reply.e.applied == EchoApplied(g.e, Reports(cat, g.e.id, g.kv, x.plan))
  {
    hide GateOf, PlanOf, Perform, EchoThrows, EchoApplied, Reports, Fits;
    var g := GateOf(cat, s.conns[sid], m);
    var plan := PlanOf(cat, s, sid, g.e, g.kv, OnTrial(cat, m));
    if !plan.Refuse? {
      PerformReports(cat, s, sid, g.e.id, g.kv, OnTrial(cat, m), plan);
    }
  }

  /** What an ECHO says of one key: nothing of a secret, and else what was read, unless a place bound it. */
  ghost predicate SaidOf(cat: Catalog, e: Entry, kv: map<nat, IVal>, writes: bool, f: SchemaField, said: map<nat, IVal>) {
    && f.key in said && f.key in kv
    && (f.secret ==> said[f.key] == IBool(true))
    && (!f.secret && (!writes || forall k :: 0 <= k < |cat.entries| ==> NoMirror(cat.entries[k], e.id, f.key)) ==>
         said[f.key] == kv[f.key])
  }

  lemma SaidIs(cat: Catalog, e: Entry, kv: map<nat, IVal>, plan: Plan, n: nat, l: Loc, key: nat)
    requires cat.WellFormed() && e.IntentEntry? && Names(e.schema, n, key) && key in kv
    ensures var said, f := EchoApplied(e, Reports(cat, e.id, kv, plan)), e.schema[n];
            && SaidOf(cat, e, kv, plan.Writes?, f, said)
            && (!f.secret && plan.Writes? && LastMirrors(cat, l, e.id, key) ==>
                 cat.HasLoc(l) && WriteAt(cat, e.id, kv, l) == Some(AsVal(said[key])))
  {
    hide FieldByKey, Applied, LastMirrors, WriteAt, AsVal, NoMirror, cat.WellFormed;
    NamesIs(e.schema, n, key);
    AppliedIs(cat, e.id, kv, l, key);
  }

  lemma SaidKeys(cat: Catalog, e: Entry, kv: map<nat, IVal>, plan: Plan)
    requires e.IntentEntry? && forall k :: k in kv ==> FieldByKey(e.schema, k).Some?
    ensures EchoApplied(e, Reports(cat, e.id, kv, plan)).Keys == kv.Keys
  {
    hide FieldByKey, AppliedValue;
  }

  /**
   * The ECHO of an intent that is carried out names exactly the keys it was sent. Of a secret field it says
   * only that it was set; of any other what was read.
   */
  lemma EchoShows(cat: Catalog, s: State, sid: nat, m: Intent, n: nat)
    requires Fits(cat, s.vals) && sid in s.conns && GateOf(cat, s.conns[sid], m).Pass? && OnIntent(cat, s, sid, m).reply.EchoReply?
    ensures var g, x, said := GateOf(cat, s.conns[sid], m), EffectOf(cat, s, IntentFrame(sid, m)), OnIntent(cat, s, sid, m).reply.e.applied;
            && g.e.IntentEntry? && x.Does? && m.value.Some? && said.Keys == Keys(m.value.value)
            && (n < |g.e.schema| && g.e.schema[n].key in said && Names(g.e.schema, n, g.e.schema[n].key) ==>
                 SaidOf(cat, g.e, g.kv, x.plan.Writes?, g.e.schema[n], said))
  {
    hide GateOf, EffectOf, OnIntent, EchoApplied, Reports, Names, SaidOf, Keys, FieldByKey;
    var g := GateOf(cat, s.conns[sid], m);
    EchoIs(cat, s, sid, m);
    PassKeys(cat, s.conns[sid], m);
    PassNamed(cat, s.conns[sid], m);
    var x := EffectOf(cat, s, IntentFrame(sid, m));
    SaidKeys(cat, g.e, g.kv, x.plan);
    if n < |g.e.schema| && g.e.schema[n].key in g.kv && Names(g.e.schema, n, g.e.schema[n].key) {
      SaidIs(cat, g.e, g.kv, x.plan, n, Loc(0, 0), g.e.schema[n].key);
    }
  }

  /** What the ECHO of a settings write says of a key is what was stored in the last place to mirror it. */
  lemma EchoIsStored(cat: Catalog, s: State, ev: Event, n: nat, l: Loc)
    requires Fits(cat, s.vals) && cat.Apart() && ev.IntentFrame? && ev.sid in s.conns && WritesTo(cat, s, ev)
    requires OnIntent(cat, s, ev.sid, ev.m).reply.EchoReply? && l in s.vals
    requires var e := EffectOf(cat, s, ev).e;
             n < |e.schema| && !e.schema[n].secret && Names(e.schema, n, e.schema[n].key) && LastMirrors(cat, l, e.id, e.schema[n].key)
    requires var e := EffectOf(cat, s, ev).e; e.schema[n].key in EffectOf(cat, s, ev).kv
    ensures var key, said := EffectOf(cat, s, ev).e.schema[n].key, OnIntent(cat, s, ev.sid, ev.m).reply.e.applied;
            && key in said && cat.HasLoc(l) && Known(cat.At(l).f.kind) && l in Next(cat, s, ev).vals
            && (!cat.At(l).secret ==> Next(cat, s, ev).vals[l] == StoredAt(cat, l, AsVal(said[key])))
  {
    hide GateOf, Next, Perform, PlanOf, OnIntent, EchoApplied, Reports, Names, FieldByKey, LastMirrors, WriteAt, StoredAt, AsVal,
         cat.IsSource, cat.SettingOf, cat.Apart, Fits;
    var x := EffectOf(cat, s, ev);
    EchoIs(cat, s, ev.sid, ev.m);
    FitsPlace(cat, s.vals, l);
    SaidIs(cat, x.e, x.kv, x.plan, n, l, x.e.schema[n].key);
    NextMachine(cat, s, ev);
    FitsSame(cat, s.vals, Next(cat, s, ev).vals, l);
    LastIsSetting(cat, l, x.e.id, x.e.schema[n].key);
    PerformPlace(cat, s, x.sid, x.e.id, x.kv, x.trial, x.plan, l);
  }

  lemma LastIsSetting(cat: Catalog, l: Loc, ch: nat, key: nat)
    requires cat.WellFormed() && LastMirrors(cat, l, ch, key)
    ensures cat.SettingOf(l).Some?
  {
    var n :| 0 <= n < |cat.entries| && LastAt(cat.entries, n, l, ch, key);
    cat.Finds(n);
  }

  /** Whether the ECHO can carry a whole number is whether the encoder of its field's type takes it. */
  lemma EncodableIs(f: SchemaField, n: int)
    requires f.kind == UIntT || f.kind == IntT
    ensures var v := if f.kind == IntT && n < 0 then Cbor.NInt(Cbor.Num(-1 - n)) else Cbor.UInt(Cbor.Num(if n < 0 then 0 else n));
            f.secret || (f.kind == UIntT && n < 0) || (EchoEncodable(f, INum(n as real)) <==> Cbor.Encoded(v).Some?)
  {
    hide Cbor.BE16, Cbor.BE32, Cbor.BE64;
    assert (n as real).Floor == n;
    assert -1.0 - n as real == (-1 - n) as real && ((-1 - n) as real).Floor == -1 - n;
  }
}
