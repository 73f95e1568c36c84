/** Who may do what at the hub (clients/js/localhub.js): the safety operations, the control floor, the access tiers. */
module HubControl {
  import opened Bytes
  import opened Packed
  import opened HubCatalog
  import opened Hub
  import opened HubPlaces
  import opened HubTrials
  import opened HubSteps
  import opened HubSafety
  import opened HubIntents
  import PackedWrite

  // ---- the pause ------------------------------------------------------------------------------------

  /** The hub carries out an operation that pauses: a pause, an override, or a release, which lands in pause. */
  ghost predicate Pauses(cat: Catalog, s: State, ev: Event) {
    Operates(cat, s, ev, OP_PAUSE) || Operates(cat, s, ev, OP_OVERRIDE) || (Operates(cat, s, ev, OP_RELEASE) && s.latch.estop)
  }

  /** A safety operation that is carried out pauses, resumes, or leaves the pause as it is. */
  lemma PausePlanned(cat: Catalog, L: Latch, op: Option<IVal>)
    ensures var plan := PlanSafety(L, op);
            !plan.Refuse? ==>
              ((if plan.To? then plan.latch.paused else L.paused)
               <==> op == Some(INum(OP_PAUSE)) || op == Some(INum(OP_OVERRIDE)) || (op == Some(INum(OP_RELEASE)) && L.estop)
                    || (L.paused && op != Some(INum(OP_RESUME))))
  {
  }

  lemma PlanPauses(cat: Catalog, s: State, x: Effect)
    requires Decided(cat, s, x) && x.Does? && !x.plan.Refuse?
    ensures if OpKey(x.e).Some? then x.plan == PlanSafety(s.latch, OpOf(x.e, x.kv)) else !x.plan.To? && !x.plan.EstopNow?
  {
    hide TrialRefusal, WriteRefusal, PlanStore, PlanSafety, Has;
    PlanStoreKinds(cat, s.items, x.e, x.kv);
  }

  lemma PlanStoreKinds(cat: Catalog, items: map<nat, Item>, e: Entry, kv: map<nat, IVal>)
    requires e.IntentEntry?
    ensures var plan := PlanStore(cat, items, e, kv); plan.Refuse? || plan.Keep? || plan.Leaves?
  {
    hide Bound, Get, SlotOp, SavedPayload, FirstAct;
  }

  /** After every event the machine is paused exactly if the event paused it, or it was and did not resume it. */
  lemma PausedBecause(cat: Catalog, s: State, ev: Event)
    requires Fits(cat, s.vals)
    ensures Next(cat, s, ev).latch.paused <==> Pauses(cat, s, ev) || (s.latch.paused && !Operates(cat, s, ev, OP_RESUME))
  {
    hide Next, EffectOf, Machine, PlanOf, PlanSafety;
    var x := EffectOf(cat, s, ev);
    NextMachine(cat, s, ev);
    EffectDecided(cat, s, ev);
    MachineLatch(cat, s, x);
    if x.Does? {
      PlanPauses(cat, s, x);
      if OpKey(x.e).Some? {
        PausePlanned(cat, s.latch, OpOf(x.e, x.kv));
        SafetyKinds(s.latch, OpOf(x.e, x.kv));
      }
    }
  }

  lemma SafetyKinds(L: Latch, op: Option<IVal>)
    ensures var plan := PlanSafety(L, op); plan.Refuse? || plan.Keep? || plan.EstopNow? || plan.To?
  {
  }

  /** Before step `k` the machine was resumed, or the run began with it unpaused. */
  ghost predicate Freed(cat: Catalog, states: seq<State>, evs: seq<Event>, k: nat)
    requires k <= |evs| < |states|
  {
    if k == 0 then !states[0].latch.paused else Operates(cat, states[k - 1], evs[k - 1], OP_RESUME)
  }

  /**
   * In a run the machine is free of pause exactly if it was resumed, or began unpaused, and nothing
   * has paused it since.
   */
  lemma {:induction false} UnpausedIff(cat: Catalog, states: seq<State>, evs: seq<Event>, n: nat)
    requires Trace(cat, states, evs) && n < |states| == |evs| + 1
    ensures !states[n].latch.paused
       <==> exists k :: 0 <= k <= n && Freed(cat, states, evs, k) && forall i :: k <= i < n ==> !Pauses(cat, states[i], evs[i])
  {
    hide Next, Operates, Pauses;
    if n > 0 {
      UnpausedIff(cat, states, evs, n - 1);
      PausedBecause(cat, states[n - 1], evs[n - 1]);
      assert states[n] == Next(cat, states[n - 1], evs[n - 1]);
      ResumeIsNotPause(cat, states[n - 1], evs[n - 1]);
      assert Freed(cat, states, evs, n) <==> Operates(cat, states[n - 1], evs[n - 1], OP_RESUME);
    } else {
      assert Freed(cat, states, evs, 0) <==> !states[0].latch.paused;
    }
  }

  lemma ResumeIsNotPause(cat: Catalog, s: State, ev: Event)
    ensures Operates(cat, s, ev, OP_RESUME) ==> !Pauses(cat, s, ev)
  {
    hide EffectOf;
  }

  // ---- the way back ---------------------------------------------------------------------------------

  /** An intent that passes the gate and the trial rules. */
  ghost predicate Arrives(cat: Catalog, s: State, ev: Event) {
    ev.IntentFrame? && ev.sid in s.conns && GateOf(cat, s.conns[ev.sid], ev.m).Pass?
    && var g := GateOf(cat, s.conns[ev.sid], ev.m); TrialRefusal(cat, s, ev.sid, g.e, g.kv, OnTrial(cat, ev.m)).None?
  }

  /** The session asks for a safety operation, and may. */
  ghost predicate Asks(cat: Catalog, s: State, ev: Event, op: real) {
    Arrives(cat, s, ev)
    && var g := GateOf(cat, s.conns[ev.sid], ev.m); OpKey(g.e).Some? && OpOf(g.e, g.kv) == Some(INum(op))
  }

  /** The session asks for a homing, and nothing else of the machine. */
  ghost predicate AsksHome(cat: Catalog, s: State, ev: Event) {
    Arrives(cat, s, ev)
    && var g := GateOf(cat, s.conns[ev.sid], ev.m);
       OpKey(g.e).None? && g.e.id != CH_SETTINGS_TRIAL && Has(g.e, HomeAct, g.kv)
       && !Has(g.e, StoreAct, g.kv) && !Has(g.e, CommandPosition, g.kv) && forall l :: !Starts(cat, s, g.e.id, g.kv, l)
  }

  /** The latch after a plan on it. */
  function Planned(cat: Catalog, L: Latch, plan: Plan): Latch {
    match plan
    case EstopNow => Estopped(cat, L)
    case To(M) => M
    case _ => L
  }

  lemma AskedPlan(cat: Catalog, s: State, ev: Event, op: real)
    requires Asks(cat, s, ev, op)
    ensures var g := GateOf(cat, s.conns[ev.sid], ev.m);
            PlanOf(cat, s, ev.sid, g.e, g.kv, OnTrial(cat, ev.m)) == PlanSafety(s.latch, Some(INum(op)))
  {
    hide GateOf, TrialRefusal, PlanSafety, PlanWrite, PlanTrials;
  }

  lemma AskedLatch(cat: Catalog, s: State, ev: Event, op: real)
    requires Fits(cat, s.vals) && Asks(cat, s, ev, op)
    ensures Operates(cat, s, ev, op) <==> !PlanSafety(s.latch, Some(INum(op))).Refuse?
    ensures Next(cat, s, ev).latch == Planned(cat, s.latch, PlanSafety(s.latch, Some(INum(op))))
  {
    hide Next, Machine, GateOf, PlanOf, PlanSafety, TrialRefusal;
    AskedPlan(cat, s, ev, op);
    var x := EffectOf(cat, s, ev);
    NextMachine(cat, s, ev);
    MachineLatch(cat, s, x);
    SafetyKinds(s.latch, Some(INum(op)));
  }

  lemma HomePlan(cat: Catalog, s: State, ev: Event)
    requires AsksHome(cat, s, ev)
    ensures var g := GateOf(cat, s.conns[ev.sid], ev.m);
            PlanOf(cat, s, ev.sid, g.e, g.kv, OnTrial(cat, ev.m))
            == if s.latch.estop then Refuse(EstopActive) else Writes(s.latch.homeRequired)
  {
    hide GateOf, TrialRefusal, PlanSafety, PlanTrials, PlanStore, Has, Starts;
  }

  lemma HomedLatch(cat: Catalog, s: State, ev: Event)
    requires Fits(cat, s.vals) && AsksHome(cat, s, ev)
    ensures Homes(cat, s, ev) <==> !s.latch.estop
    ensures Next(cat, s, ev).latch == if s.latch.estop then s.latch else s.latch.(homeRequired := false)
  {
    hide Next, Machine, GateOf, PlanOf, TrialRefusal, Has, Starts;
    HomePlan(cat, s, ev);
    var x := EffectOf(cat, s, ev);
    NextMachine(cat, s, ev);
    MachineLatch(cat, s, x);
  }

  /** Nothing keeps the machine from moving. */
  predicate Free(L: Latch) {
    !L.estop && !L.paused && !L.override && !L.homeRequired
  }

  /** The event is a stop, or the hub carries out a safety operation or a homing: nothing else touches the latch. */
  ghost predicate Touches(cat: Catalog, s: State, ev: Event) {
    var x := EffectOf(cat, s, ev);
    x.Estops? || (x.Does? && x.e.IntentEntry? && (OpKey(x.e).Some? || (x.plan.Writes? && x.plan.homed)))
  }

  lemma Untouched(cat: Catalog, s: State, ev: Event)
    requires Fits(cat, s.vals) && !Touches(cat, s, ev)
    ensures Next(cat, s, ev).latch == s.latch
  {
    hide Next, EffectOf, Machine, PlanOf, PlanSafety;
    var x := EffectOf(cat, s, ev);
    NextMachine(cat, s, ev);
    EffectDecided(cat, s, ev);
    MachineLatch(cat, s, x);
    if x.Does? {
      PlanPauses(cat, s, x);
    }
  }

  lemma {:induction false} LatchThrough(cat: Catalog, states: seq<State>, evs: seq<Event>, i: nat, j: nat)
    requires Trace(cat, states, evs) && i <= j < |states| == |evs| + 1
    requires forall n :: i <= n < j ==> !Touches(cat, states[n], evs[n])
    ensures states[j].latch == states[i].latch
  {
    hide Next, Touches;
    if i < j {
      LatchThrough(cat, states, evs, i, j - 1);
      Untouched(cat, states[j - 1], evs[j - 1]);
      assert states[j] == Next(cat, states[j - 1], evs[j - 1]);
    }
  }

  /**
   * From every latch there is a way back: a release, a return, a homing and a resume, asked for in this
   * order by whoever may and with any events between that leave the latch alone, are all carried out
   * and leave the machine free.
   */
  lemma WayBack(cat: Catalog, states: seq<State>, evs: seq<Event>, i: nat, j: nat, k: nat, n: nat)
    requires Trace(cat, states, evs) && i < j < k < n < |evs| && |states| == |evs| + 1
    requires Asks(cat, states[i], evs[i], OP_RELEASE) && Asks(cat, states[j], evs[j], OP_RETURN)
    requires AsksHome(cat, states[k], evs[k]) && Asks(cat, states[n], evs[n], OP_RESUME)
    requires forall m :: i < m < n && m != j && m != k ==> !Touches(cat, states[m], evs[m])
    ensures Operates(cat, states[i], evs[i], OP_RELEASE) && Operates(cat, states[j], evs[j], OP_RETURN)
    ensures Homes(cat, states[k], evs[k]) && Operates(cat, states[n], evs[n], OP_RESUME)
    ensures Free(states[n + 1].latch)
  {
    hide Next, Operates, Homes, Asks, AsksHome, Touches;
    AskedLatch(cat, states[i], evs[i], OP_RELEASE);
    LatchThrough(cat, states, evs, i + 1, j);
    AskedLatch(cat, states[j], evs[j], OP_RETURN);
    LatchThrough(cat, states, evs, j + 1, k);
    HomedLatch(cat, states[k], evs[k]);
    LatchThrough(cat, states, evs, k + 1, n);
    AskedLatch(cat, states[n], evs[n], OP_RESUME);
    assert states[n + 1] == Next(cat, states[n], evs[n]);
  }

  /** A resume alone frees a machine exactly if no stop, override or homing demand holds it. */
  lemma ResumeFrees(cat: Catalog, s: State, ev: Event)
    requires Fits(cat, s.vals) && Asks(cat, s, ev, OP_RESUME)
    ensures Free(Next(cat, s, ev).latch) <==> !s.latch.estop && !s.latch.override && !s.latch.homeRequired
    ensures Operates(cat, s, ev, OP_RESUME) <==> Free(Next(cat, s, ev).latch)
  {
    hide Next, Operates, Asks;
    AskedLatch(cat, s, ev, OP_RESUME);
  }

  // ---- the control floor ---------------------------------------------------------------------------

  /** The operations that bring a machine back. */
  predicate ReArms(op: real) {
    op == OP_RELEASE || op == OP_RESUME || op == OP_OVERRIDE || op == OP_RETURN
  }

  /** The field reads this operation as one that brings a machine back. */
  predicate ReadAsReArming(f: SchemaField, op: real) {
    var x := Coerced(f, INum(op));
    x.Some? && x.value.INum? && ReArms(x.value.r)
  }

  /** The operation field of the safety channel, if there is one, reads pause and stop as themselves or as nothing to carry out. */
  predicate ReadsStraight(cat: Catalog) {
    var e := cat.Find(CH_SAFETY_INTENTS);
    e.Some? && e.value.IntentEntry? && OpKey(e.value).Some? ==>
      var f := FieldByKey(e.value.schema, OpKey(e.value).value);
      f.Some? ==> !ReadAsReArming(f.value, OP_PAUSE) && !ReadAsReArming(f.value, OP_ESTOP)
  }

  predicate DistinctKeys(value: seq<KV>) {
    forall i, j :: 0 <= i < j < |value| ==> value[i].key != value[j].key
  }

  /** A key that has been read already keeps its value. */
  lemma {:induction false} ValidatedKeeps(e: Entry, roles: nat, value: seq<KV>, sofar: map<nat, IVal>, k: nat)
    requires e.IntentEntry? && k in sofar && forall i :: 0 <= i < |value| ==> value[i].key != k
    ensures var c := Validated(e, roles, value, sofar); c.Good? ==> k in c.kv && c.kv[k] == sofar[k]
    decreases value
  {
    hide FieldByKey, Coerced, NeedFor;
    if value != [] {
      var f := FieldByKey(e.schema, value[0].key);
      if f.Some? && roles >= NeedFor(e, f.value, value[0].v) && Coerced(f.value, value[0].v).Some? {
        ValidatedKeeps(e, roles, value[1..], sofar[value[0].key := Coerced(f.value, value[0].v).value], k);
      }
    }
  }

  /** A validated key holds the coerced value that came with it, and access was granted for it. */
  lemma {:induction false} ValidatedIs(e: Entry, roles: nat, value: seq<KV>, sofar: map<nat, IVal>, k: nat)
    requires e.IntentEntry? && DistinctKeys(value) && k !in sofar
    ensures var c := Validated(e, roles, value, sofar);
            c.Good? ==>
              && (k in c.kv <==> LookUp(value, k).Some?)
              && (k in c.kv ==>
                   && FieldByKey(e.schema, k).Some?
                   && Coerced(FieldByKey(e.schema, k).value, LookUp(value, k).value) == Some(c.kv[k])
                   && roles >= NeedFor(e, FieldByKey(e.schema, k).value, LookUp(value, k).value))
    decreases value
  {
    hide FieldByKey, Coerced, NeedFor;
    if value != [] {
      var f := FieldByKey(e.schema, value[0].key);
      if f.Some? && roles >= NeedFor(e, f.value, value[0].v) && Coerced(f.value, value[0].v).Some? {
        var next := sofar[value[0].key := Coerced(f.value, value[0].v).value];
        if value[0].key == k {
          forall i | 0 <= i < |value[1..]|
            ensures value[1..][i].key != k
          {
            assert value[1..][i] == value[i + 1];
          }
          ValidatedKeeps(e, roles, value[1..], next, k);
        } else {
          ValidatedIs(e, roles, value[1..], next, k);
        }
      }
    }
  }

  /** What an event needs for the session that sends it. */
  ghost predicate Sent(ev: Event) {
    ev.IntentFrame? ==> ev.m.value.Some? ==> DistinctKeys(ev.m.value.value)
  }

  /** The session that sends the event is ready and may control the machine. */
  predicate InControl(s: State, ev: Event) {
    ev.IntentFrame? && ev.sid in s.conns && s.conns[ev.sid].ready && s.conns[ev.sid].roles >= CONTROL
  }

  lemma CarriedOps(L: Latch, op: Option<IVal>)
    ensures !PlanSafety(L, op).Refuse? ==>
              op.Some? && op.value.INum? && (op.value.r == OP_PAUSE || op.value.r == OP_ESTOP || ReArms(op.value.r))
  {
  }

  /** An operation that brings the machine back was sent as such, unless the field read it so. */
  lemma ReArmingNeedsControl(cat: Catalog, s: State, ev: Event, op: real)
    requires ReadsStraight(cat) && Operates(cat, s, ev, op) && op != OP_PAUSE && op != OP_ESTOP && Sent(ev)
    ensures InControl(s, ev)
  {
    hide PlanOf, Coerced, FieldByKey, EchoIn, NeedFor, Validated, PlanSafety, ReArms;
    var m, c := ev.m, s.conns[ev.sid];
    var g := GateOf(cat, c, m);
    var e := g.e;
    EffectDecided(cat, s, ev);
    PlanPauses(cat, s, EffectOf(cat, s, ev));
    CarriedOps(s.latch, OpOf(e, g.kv));
    FoundId(cat, e, m.ch);
    ValidatedIs(e, c.roles, m.value.value, map[], OpKey(e).value);
  }

  /** A paused machine, and a session that is not ready, with whatever rights the field asks for. */
  function Waiting(cat: Catalog, roles: nat): State {
    State(map l | l in cat.Locs() :: Num(0.0), Latch(false, true, 0, 0, 0, 0, false, false, 0), map[], map[], map[], 1,
          map[7 := Conn(false, roles, {}, [], map[], None)])
  }

  function SafetyIntent(key: nat, op: real): Intent {
    Intent(CH_SAFETY_INTENTS, Some(1), Some([KV(key, INum(op))]), false)
  }

  lemma OneValid(e: Entry, roles: nat, kv: KV)
    requires e.IntentEntry? && FieldByKey(e.schema, kv.key).Some?
    requires var f := FieldByKey(e.schema, kv.key).value; roles >= NeedFor(e, f, kv.v) && Coerced(f, kv.v).Some?
    ensures Validated(e, roles, [kv], map[]) == Good(map[kv.key := Coerced(FieldByKey(e.schema, kv.key).value, kv.v).value])
  {
    hide FieldByKey, Coerced, NeedFor;
    assert [kv][1..] == [];
  }

  /** What the field reads as a way back, it lets anyone take. */
  lemma ReadAround(cat: Catalog, e: Entry, op: real)
    requires cat.Find(CH_SAFETY_INTENTS) == Some(e) && e.IntentEntry? && OpKey(e).Some? && (op == OP_PAUSE || op == OP_ESTOP)
    requires var f := FieldByKey(e.schema, OpKey(e).value); f.Some? && ReadAsReArming(f.value, op)
    ensures var f := FieldByKey(e.schema, OpKey(e).value).value;
            var s, ev := Waiting(cat, NeedFor(e, f, INum(op))), IntentFrame(7, SafetyIntent(OpKey(e).value, op));
            Operates(cat, s, ev, Coerced(f, INum(op)).value.r) && !InControl(s, ev) && Sent(ev)
  {
    hide FieldByKey, Coerced, NeedFor, PlanSafety, OptionKey, cat.Find;
    var key := OpKey(e).value;
    var f := FieldByKey(e.schema, key).value;
    var s, m := Waiting(cat, NeedFor(e, f, INum(op))), SafetyIntent(key, op);
    var kv := map[key := Coerced(f, INum(op)).value];
    OneValid(e, s.conns[7].roles, KV(key, INum(op)));
    assert LookUp(m.value.value, key) == Some(INum(op));
    assert GateOf(cat, s.conns[7], m) == Pass(e, kv);
    WaitingPlan(cat, s, e, kv);
  }

  lemma WaitingPlan(cat: Catalog, s: State, e: Entry, kv: map<nat, IVal>)
    requires e.IntentEntry? && e.id == CH_SAFETY_INTENTS && OpKey(e).Some? && OpKey(e).value in kv
    requires s.trials == map[] && !s.latch.estop && !s.latch.override && !s.latch.homeRequired
    requires kv[OpKey(e).value].INum? && ReArms(kv[OpKey(e).value].r)
    ensures !PlanOf(cat, s, 7, e, kv, false).Refuse?
  {
    hide OptionKey;
  }

  lemma FoundId(cat: Catalog, e: Entry, id: nat)
    requires cat.Find(id) == Some(e)
    ensures e.id == id
  {
    FoundIn(cat.entries, id);
  }

  /** The control floor holds: a way back is carried out for none but a ready session with the control role. */
  ghost predicate FloorHolds(cat: Catalog) {
    forall s: State, ev: Event, op: real ::
      Fits(cat, s.vals) && Sent(ev) && ReArms(op) && Operates(cat, s, ev, op) ==> InControl(s, ev)
  }

  /**
   * The control floor holds in every state, for every event, if and only if the operation field of
   * the safety channel does not read a pause or a stop as a way back: the gate judges the operation
   * as sent, and the hub carries it out as clamped.
   */
  lemma FloorIff(cat: Catalog)
    requires cat.WellFormed()
    ensures FloorHolds(cat) <==> ReadsStraight(cat)
  {
    hide Operates, InControl, Coerced, NeedFor, FieldByKey;
    if ReadsStraight(cat) {
      forall s: State, ev: Event, op: real | Fits(cat, s.vals) && Sent(ev) && ReArms(op) && Operates(cat, s, ev, op)
        ensures InControl(s, ev)
      {
        ReArmingNeedsControl(cat, s, ev, op);
      }
    } else {
      var e := cat.Find(CH_SAFETY_INTENTS).value;
      var f := FieldByKey(e.schema, OpKey(e).value).value;
      var op := if ReadAsReArming(f, OP_PAUSE) then OP_PAUSE else OP_ESTOP;
      FoundId(cat, e, CH_SAFETY_INTENTS);
      ReadAround(cat, e, op);
      var s, ev := Waiting(cat, NeedFor(e, f, INum(op))), IntentFrame(7, SafetyIntent(OpKey(e).value, op));
      assert Fits(cat, s.vals);
      assert Operates(cat, s, ev, Coerced(f, INum(op)).value.r);
    }
  }

  /** An operation field with a lower bound of 5 makes a resume of a pause. */
  function Clamping(single: PackedWrite.ToSingle): Catalog {
    Catalog([IntentEntry(CH_SAFETY_INTENTS, WATCH,
                         [SchemaField(1, UIntT, OtherAct, Some(16), None, None, false, Some(5.0), None)], None)], false, single)
  }

  /** Under it a watcher who is not even ready resumes a paused machine by pausing it. */
  lemma PauseResumes(single: PackedWrite.ToSingle)
    ensures var cat := Clamping(single);
            var s, ev := Waiting(cat, WATCH), IntentFrame(7, SafetyIntent(1, OP_PAUSE));
            && Fits(cat, s.vals) && Operates(cat, s, ev, OP_RESUME) && !InControl(s, ev)
            && s.latch.paused && !Next(cat, s, ev).latch.paused
  {
    hide Next, Operates, FieldByKey;
    var cat := Clamping(single);
    var e := cat.entries[0];
    assert cat.Find(CH_SAFETY_INTENTS) == Some(e) && OpKey(e) == Some(1);
    ClampedField(e);
    ReadAround(cat, e, OP_PAUSE);
    var s, ev := Waiting(cat, WATCH), IntentFrame(7, SafetyIntent(1, OP_PAUSE));
    PausedBecause(cat, s, ev);
    ResumeIsNotPause(cat, s, ev);
  }

  lemma ClampedField(e: Entry)
    requires e.IntentEntry? && e.access == WATCH
    requires e.schema == [SchemaField(1, UIntT, OtherAct, Some(16), None, None, false, Some(5.0), None)]
    ensures FieldByKey(e.schema, 1) == Some(e.schema[0]) && Coerced(e.schema[0], INum(OP_PAUSE)) == Some(INum(OP_RESUME))
    ensures NeedFor(e, e.schema[0], INum(OP_PAUSE)) == WATCH
  {
    assert e.schema[1..] == [];
  }

  /** Pause and stop are never turned away for readiness or role alone. */
  lemma StopOutranks(cat: Catalog, c: Conn, m: Intent, e: Entry)
    requires cat.Find(m.ch) == Some(e) && e.IntentEntry? && m.value.Some? && Exempt(e, m.value.value)
    ensures GateOf(cat, c, m) != Stop(NotReady) && GateOf(cat, c, m) != Stop(NotController)
  {
    hide Exempt, EchoIn;
    ValidatedCodes(e, c.roles, m.value.value, map[]);
  }

  lemma {:induction false} ValidatedCodes(e: Entry, roles: nat, value: seq<KV>, sofar: map<nat, IVal>)
    requires e.IntentEntry?
    ensures var c := Validated(e, roles, value, sofar); c.Bad? ==> c.code == InvalidValue || c.code == AccessDenied
    decreases value
  {
    hide FieldByKey, Coerced, NeedFor;
    if value != [] {
      var f := FieldByKey(e.schema, value[0].key);
      if f.Some? && roles >= NeedFor(e, f.value, value[0].v) && Coerced(f.value, value[0].v).Some? {
        ValidatedCodes(e, roles, value[1..], sofar[value[0].key := Coerced(f.value, value[0].v).value]);
      }
    }
  }

  // ---- anyone in control can bring the machine back -----------------------------------------------------

  /** The channel carries verbs or safety operations, so no trial opens on it. */
  ghost predicate Verbal(cat: Catalog, ch: nat) {
    var e := cat.Find(ch);
    e.Some? && e.value.IntentEntry?
    && (OpKey(e.value).Some? || exists i :: 0 <= i < |e.value.schema| && IsVerb(e.value.schema[i].act))
  }

  /** No verb is on trial. */
  ghost predicate NoVerbOnTrial(cat: Catalog, s: State) {
    forall st :: st in s.trials ==> !Verbal(cat, st.ch)
  }

  lemma OpenedPlain(cat: Catalog, s: State, sid: nat, e: Entry, kv: map<nat, IVal>)
    requires e.IntentEntry? && cat.TrialsOn() && TrialRefusal(cat, s, sid, e, kv, true).None?
    ensures OpKey(e).None? && forall i :: 0 <= i < |e.schema| ==> !IsVerb(e.schema[i].act)
  {
    hide Trialable;
  }

  lemma PerformTrials(cat: Catalog, s: State, sid: nat, ch: nat, kv: map<nat, IVal>, trial: bool, plan: Plan)
    requires Fits(cat, s.vals) && !plan.Refuse?
    ensures forall st :: st in Perform(cat, s, sid, ch, kv, trial, plan).s.trials ==> st in s.trials || (trial && st.ch == ch)
  {
    hide Enact, MaskChannels, Masked, Base;
    EnactTrials(cat, s, sid, ch, kv, plan);
    var o := Enact(cat, s, sid, ch, kv, plan);
    MaskedTrials(cat, o.s.(trials := Settled(cat, s.vals, o.s.trials, sid, ch, kv, trial)));
  }

  /** A trial opens only by a trial write on its channel that the trial rules let through. */
  lemma OpensOn(cat: Catalog, s: State, ev: Event, st: Setting)
    requires Fits(cat, s.vals) && st in Next(cat, s, ev).trials && st !in s.trials
    ensures !Verbal(cat, st.ch)
  {
    hide Next, Perform, EndTrials, LatchEstop, GateOf, TrialRefusal;
    NextMachine(cat, s, ev);
    var x := EffectOf(cat, s, ev);
    match x
    case Does(sid, e, kv, trial, plan) =>
      PerformTrials(cat, s, sid, e.id, kv, trial, plan);
      FoundId(cat, e, ev.m.ch);
      OpenedPlain(cat, s, sid, e, kv);
    case Closes(sid) => EndDrops(cat, Without(s, sid), sid, false);
    case Estops => EstopTrials(cat, s);
    case Quiet =>
  }

  lemma NextNoVerb(cat: Catalog, s: State, ev: Event)
    requires Fits(cat, s.vals) && NoVerbOnTrial(cat, s)
    ensures NoVerbOnTrial(cat, Next(cat, s, ev))
  {
    hide Next, Verbal;
    forall st | st in Next(cat, s, ev).trials
      ensures !Verbal(cat, st.ch)
    {
      if st !in s.trials {
        OpensOn(cat, s, ev, st);
      }
    }
  }

  lemma {:induction false} TraceNoVerb(cat: Catalog, states: seq<State>, evs: seq<Event>, k: nat)
    requires Trace(cat, states, evs) && NoVerbOnTrial(cat, states[0]) && k < |states|
    ensures NoVerbOnTrial(cat, states[k])
  {
    hide Next, NoVerbOnTrial;
    if k > 0 {
      TraceNoVerb(cat, states, evs, k - 1);
      NextNoVerb(cat, states[k - 1], evs[k - 1]);
    }
  }

  /** The safety channel takes the operation as it is from such a session. */
  predicate Takes(cat: Catalog, roles: nat, op: real) {
    var e := cat.Find(CH_SAFETY_INTENTS);
    e.Some? && e.value.IntentEntry? && OpKey(e.value).Some?
    && var f := FieldByKey(e.value.schema, OpKey(e.value).value);
       f.Some? && Coerced(f.value, INum(op)) == Some(INum(op)) && roles >= NeedFor(e.value, f.value, INum(op))
  }

  /** The value homes the machine, and does nothing else, when such a session sends it on the channel. */
  ghost predicate HomesBy(cat: Catalog, roles: nat, ch: nat, kv: KV) {
    var e := cat.Find(ch);
    e.Some? && e.value.IntentEntry? && OpKey(e.value).None? && ch != CH_SETTINGS_TRIAL
    && var f := FieldByKey(e.value.schema, kv.key);
       f.Some? && Coerced(f.value, kv.v).Some? && roles >= NeedFor(e.value, f.value, kv.v)
       && var said := map[kv.key := Coerced(f.value, kv.v).value];
          Has(e.value, HomeAct, said) && !Has(e.value, StoreAct, said) && !Has(e.value, CommandPosition, said)
          && forall l :: cat.IsSource(l) ==> cat.SettingOf(l) != Some(Setting(ch, kv.key))
  }

  /** The session may bring the machine back. */
  ghost predicate InCharge(cat: Catalog, s: State, sid: nat, ch: nat, kv: KV) {
    && sid in s.conns && s.conns[sid].ready && s.conns[sid].roles >= CONTROL && NoVerbOnTrial(cat, s)
    && Takes(cat, s.conns[sid].roles, OP_RELEASE) && Takes(cat, s.conns[sid].roles, OP_RETURN)
    && Takes(cat, s.conns[sid].roles, OP_RESUME) && HomesBy(cat, s.conns[sid].roles, ch, kv)
  }

  /** An id above every id in the ring. */
  function FreshId(ring: seq<Echo>): nat {
    if ring == [] then 0 else Max(ring[0].id + 1, FreshId(ring[1..]))
  }

  lemma {:induction false} FreshIsNew(ring: seq<Echo>, id: nat)
    requires id >= FreshId(ring)
    ensures EchoIn(ring, id).None?
  {
    if ring != [] {
      FreshIsNew(ring[1..], id);
    }
  }

  lemma VerbRefusal(cat: Catalog, s: State, sid: nat, e: Entry, kv: map<nat, IVal>)
    requires e.IntentEntry? && cat.Find(e.id) == Some(e) && NoVerbOnTrial(cat, s) && Verbal(cat, e.id)
    ensures TrialRefusal(cat, s, sid, e, kv, false).None?
  {
    hide Verbal;
    forall k | k in kv
      ensures Setting(e.id, k) !in s.trials
    {
    }
  }

  /** Whoever is in charge can ask for the operation. */
  lemma CanAsk(cat: Catalog, s: State, sid: nat, op: real) returns (ev: Event)
    requires sid in s.conns && s.conns[sid].ready && s.conns[sid].roles >= CONTROL && NoVerbOnTrial(cat, s)
    requires Takes(cat, s.conns[sid].roles, op)
    ensures Asks(cat, s, ev, op) && ev.IntentFrame? && ev.sid == sid
  {
    hide FieldByKey, Coerced, NeedFor, TrialRefusal, OptionKey, NoVerbOnTrial, cat.Find;
    var e, c := cat.Find(CH_SAFETY_INTENTS).value, s.conns[sid];
    var key, id := OpKey(e).value, FreshId(c.ring);
    ev := IntentFrame(sid, Intent(CH_SAFETY_INTENTS, Some(id), Some([KV(key, INum(op))]), false));
    FoundId(cat, e, CH_SAFETY_INTENTS);
    FreshIsNew(c.ring, id);
    OneValid(e, c.roles, KV(key, INum(op)));
    assert GateOf(cat, c, ev.m) == Pass(e, map[key := INum(op)]);
    VerbRefusal(cat, s, sid, e, map[key := INum(op)]);
  }

  lemma CanHome(cat: Catalog, s: State, sid: nat, ch: nat, kv: KV) returns (ev: Event)
    requires sid in s.conns && s.conns[sid].ready && NoVerbOnTrial(cat, s) && HomesBy(cat, s.conns[sid].roles, ch, kv)
    ensures AsksHome(cat, s, ev) && ev.IntentFrame? && ev.sid == sid
  {
    hide FieldByKey, Coerced, NeedFor, TrialRefusal, OptionKey, NoVerbOnTrial, cat.Find, Has;
    var e, c := cat.Find(ch).value, s.conns[sid];
    var id, said := FreshId(c.ring), map[kv.key := Coerced(FieldByKey(e.schema, kv.key).value, kv.v).value];
    ev := IntentFrame(sid, Intent(ch, Some(id), Some([kv]), false));
    FoundId(cat, e, ch);
    FreshIsNew(c.ring, id);
    OneValid(e, c.roles, kv);
    assert GateOf(cat, c, ev.m) == Pass(e, said);
    HomeIsVerb(cat, e, said);
    VerbRefusal(cat, s, sid, e, said);
    NoStarts(cat, s, e.id, kv.key, said);
  }

  lemma HomeIsVerb(cat: Catalog, e: Entry, said: map<nat, IVal>)
    requires cat.Find(e.id) == Some(e) && e.IntentEntry? && Has(e, HomeAct, said)
    ensures Verbal(cat, e.id)
  {
  }

  lemma NoStarts(cat: Catalog, s: State, ch: nat, key: nat, said: map<nat, IVal>)
    requires said.Keys == {key} && forall l :: cat.IsSource(l) ==> cat.SettingOf(l) != Some(Setting(ch, key))
    ensures forall l :: !Starts(cat, s, ch, said, l)
  {
  }

  lemma StaysInCharge(cat: Catalog, s: State, ev: Event, sid: nat, ch: nat, kv: KV)
    requires Fits(cat, s.vals) && InCharge(cat, s, sid, ch, kv) && ev.IntentFrame?
    ensures InCharge(cat, Next(cat, s, ev), sid, ch, kv)
  {
    hide Next, Takes, HomesBy, NoVerbOnTrial, EchoOf;
    NextNoVerb(cat, s, ev);
    IntentKeeps(cat, s, ev, sid);
    NextRing(cat, s, ev, sid);
  }

  lemma IntentKeeps(cat: Catalog, s: State, ev: Event, sid: nat)
    requires Fits(cat, s.vals) && ev.IntentFrame? && sid in s.conns
    ensures sid in Next(cat, s, ev).conns
  {
    hide OnIntent;
    if ev.sid in s.conns {
      IntentRing(cat, s, ev.sid, ev.m, sid);
    }
  }

  /** Four events, one after the other. */
  function NextFour(cat: Catalog, s: State, a: Event, b: Event, c: Event, d: Event): State
    requires Fits(cat, s.vals)
  {
    Next(cat, Next(cat, Next(cat, Next(cat, s, a), b), c), d)
  }

  /** From every state, whatever its latch, a ready session in control has four intents that free the machine. */
  lemma CanRestart(cat: Catalog, s: State, sid: nat, ch: nat, kv: KV) returns (a: Event, b: Event, c: Event, d: Event)
    requires Fits(cat, s.vals) && InCharge(cat, s, sid, ch, kv)
    ensures a.IntentFrame? && b.IntentFrame? && c.IntentFrame? && d.IntentFrame? && a.sid == b.sid == c.sid == d.sid == sid
    ensures Free(NextFour(cat, s, a, b, c, d).latch)
  {
    hide Next, Asks, AsksHome, Takes, HomesBy, NoVerbOnTrial, Operates, Homes;
    a := CanAsk(cat, s, sid, OP_RELEASE);
    AskedLatch(cat, s, a, OP_RELEASE);
    StaysInCharge(cat, s, a, sid, ch, kv);
    var t := Next(cat, s, a);
    b := CanAsk(cat, t, sid, OP_RETURN);
    AskedLatch(cat, t, b, OP_RETURN);
    StaysInCharge(cat, t, b, sid, ch, kv);
    var u := Next(cat, t, b);
    c := CanHome(cat, u, sid, ch, kv);
    HomedLatch(cat, u, c);
    StaysInCharge(cat, u, c, sid, ch, kv);
    var v := Next(cat, u, c);
    d := CanAsk(cat, v, sid, OP_RESUME);
    AskedLatch(cat, v, d, OP_RESUME);
  }

  // ---- subscriptions ------------------------------------------------------------------------------------

  /** A channel that can be subscribed to, within the tier of such a session. */
  ghost predicate Watchable(cat: Catalog, roles: nat, ch: nat) {
    exists e :: e in cat.entries && e.id == ch && e.access <= roles && (e.StateEntry? || (e.OtherEntry? && e.subscribable))
  }

  lemma GrantableIs(cat: Catalog, roles: nat, ch: nat)
    requires cat.WellFormed()
    ensures Grantable(cat, roles, ch) <==> Watchable(cat, roles, ch)
  {
    FoundIn(cat.entries, ch);
    if Watchable(cat, roles, ch) {
      var e :| e in cat.entries && e.id == ch && e.access <= roles && (e.StateEntry? || (e.OtherEntry? && e.subscribable));
      FindsIt(cat.entries, e);
    }
  }

  lemma {:induction false} GrantedMay(cat: Catalog, roles: nat, wishes: seq<nat>)
    requires cat.WellFormed()
    ensures forall ch :: ch in Granted(cat, roles, wishes) <==> ch in wishes && Watchable(cat, roles, ch)
  {
    hide Grantable, Watchable, cat.WellFormed;
    if wishes != [] {
      GrantableIs(cat, roles, wishes[0]);
      GrantedMay(cat, roles, wishes[1..]);
      assert forall ch :: ch in wishes <==> ch == wishes[0] || ch in wishes[1..];
    }
  }

  /** A HELLO subscribes to exactly the wishes it may watch, and a SUBSCRIBE of at most 16 to those besides. */
  lemma SubscribedIff(cat: Catalog, s: State, ev: Event, ch: nat)
    requires Fits(cat, s.vals) && (ev.Hello? || ev.Subscribe?) && ev.sid in s.conns
    ensures var c, t := s.conns[ev.sid], Next(cat, s, ev);
            ev.sid in t.conns
            && (ch in t.conns[ev.sid].subs
                <==> (ev.Subscribe? && ch in c.subs)
                     || ((ev.Hello? || |ev.wishes| <= 16) && ch in ev.wishes && Watchable(cat, c.roles, ch)))
  {
    hide Granted, Watchable, cat.WellFormed;
    GrantedMay(cat, s.conns[ev.sid].roles, ev.wishes);
  }

  /** Every session subscribes only to channels it may see. */
  ghost predicate MaySee(cat: Catalog, s: State) {
    forall sid, ch :: sid in s.conns && ch in s.conns[sid].subs ==> Watchable(cat, s.conns[sid].roles, ch)
  }

  lemma SameMay(cat: Catalog, a: map<nat, Conn>, b: map<nat, Conn>, sid: nat)
    requires SameConns(a, b) && sid in a
    ensures b[sid].subs == a[sid].subs && b[sid].roles == a[sid].roles
  {
  }

  lemma PlaneMaySee(cat: Catalog, s: State, ev: Event)
    requires Fits(cat, s.vals) && MaySee(cat, s) && !ev.IntentFrame? && !ev.Close? && !ev.EstopFrame?
    ensures MaySee(cat, Next(cat, s, ev))
  {
    hide OnIntent, LatchEstop, OnClose, Watchable, Granted, cat.WellFormed;
    if ev.Hello? && ev.sid in s.conns {
      GrantedMay(cat, s.conns[ev.sid].roles, ev.wishes);
    } else if ev.Subscribe? && ev.sid in s.conns {
      GrantedMay(cat, s.conns[ev.sid].roles, ev.wishes);
    }
  }

  lemma RingSame(s: State, sid: nat, echo: Echo, t: State, other: nat)
    requires sid in s.conns && RingPushed(s, sid, echo, t) && other in s.conns
    ensures other in t.conns && t.conns[other].subs == s.conns[other].subs && t.conns[other].roles == s.conns[other].roles
  {
  }

  /** Every event keeps it so. */
  lemma NextMaySee(cat: Catalog, s: State, ev: Event)
    requires Fits(cat, s.vals) && MaySee(cat, s)
    ensures MaySee(cat, Next(cat, s, ev))
  {
    hide OnIntent, LatchEstop, OnClose, Watchable, Granted, cat.WellFormed, OnHello, OnSubscribe, OnCatalogReady, GateOf,
         SameConns, RingPushed;
    var t := Next(cat, s, ev);
    match ev
    case IntentFrame(sid, m) =>
      if sid in s.conns {
        IntentConns(cat, s, sid, m);
        forall other | other in t.conns
          ensures other in s.conns && t.conns[other].subs == s.conns[other].subs && t.conns[other].roles == s.conns[other].roles
        {
          if GateOf(cat, s.conns[sid], m).Pass? && OnIntent(cat, s, sid, m).reply.EchoReply? {
            PushedKeys(s, sid, OnIntent(cat, s, sid, m).reply.e, t);
            RingSame(s, sid, OnIntent(cat, s, sid, m).reply.e, t, other);
          } else {
            SameKeys(s.conns, t.conns);
            SameMay(cat, s.conns, t.conns, other);
          }
        }
      }
    case EstopFrame =>
      EstopConns(cat, s);
      SameKeys(s.conns, t.conns);
      forall other | other in t.conns
        ensures t.conns[other].subs == s.conns[other].subs && t.conns[other].roles == s.conns[other].roles
      {
        SameMay(cat, s.conns, t.conns, other);
      }
    case Close(who) => CloseMaySee(cat, s, who);
    case Open(_, _) => PlaneMaySee(cat, s, ev);
    case Hello(_, _, _) => PlaneMaySee(cat, s, ev);
    case CatalogReady(_) => PlaneMaySee(cat, s, ev);
    case Subscribe(_, _) => PlaneMaySee(cat, s, ev);
    case Unsubscribe(_, _) => PlaneMaySee(cat, s, ev);
  }

  lemma SameKeys(a: map<nat, Conn>, b: map<nat, Conn>)
    requires SameConns(a, b)
    ensures a.Keys == b.Keys
  {
  }

  lemma PushedKeys(s: State, sid: nat, echo: Echo, t: State)
    requires sid in s.conns && RingPushed(s, sid, echo, t)
    ensures t.conns.Keys == s.conns.Keys
  {
  }

  lemma CloseMaySee(cat: Catalog, s: State, who: nat)
    requires Fits(cat, s.vals) && MaySee(cat, s)
    ensures MaySee(cat, OnClose(cat, s, who))
  {
    hide EndTrials, Fits, Watchable;
    EndConns(cat, s.(conns := s.conns - {who}), who, false);
  }

  /** In every state of a run no session subscribes to a channel above its tier. */
  lemma {:induction false} TraceMaySee(cat: Catalog, states: seq<State>, evs: seq<Event>, k: nat)
    requires Trace(cat, states, evs) && MaySee(cat, states[0]) && k < |states|
    ensures MaySee(cat, states[k])
  {
    hide Next, MaySee;
    if k > 0 {
      TraceMaySee(cat, states, evs, k - 1);
      NextMaySee(cat, states[k - 1], evs[k - 1]);
    }
  }
}
