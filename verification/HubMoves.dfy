/** Commanded moves (clients/js/localhub.js): when one is carried out, and over whole runs. */
module HubMoves {
  import opened Bytes
  import opened Packed
  import opened HubCatalog
  import opened Hub
  import opened HubPlaces
  import opened HubSteps
  import opened HubTrials
  import opened HubSafety
  import opened HubIntents
  import opened HubControl
  import opened HubAccess

  // ---- what an admitted intent carries -------------------------------------------------------------

  /** A key of the value is that of a field with this role. */
  ghost predicate Carries(e: Entry, value: seq<KV>, act: Action)
    requires e.IntentEntry?
  {
    exists n, i :: 0 <= n < |e.schema| && 0 <= i < |value| && e.schema[n].act == act && e.schema[n].key == value[i].key
  }

  /** The keys that were sent. */
  ghost function Keys(value: seq<KV>): set<nat> {
    set i | 0 <= i < |value| :: value[i].key
  }

  lemma {:induction false} ValidatedKeys(e: Entry, roles: nat, value: seq<KV>, sofar: map<nat, IVal>)
    requires e.IntentEntry?
    ensures var v := Validated(e, roles, value, sofar); v.Good? ==> v.kv.Keys == sofar.Keys + Keys(value)
    decreases value
  {
    hide FieldByKey, Coerced, NeedFor;
    if value != [] {
      var f := FieldByKey(e.schema, value[0].key);
      assert Keys(value) == {value[0].key} + Keys(value[1..]) by { KeysStep(value); }
      if f.Some? && roles >= NeedFor(e, f.value, value[0].v) && Coerced(f.value, value[0].v).Some? {
        ValidatedKeys(e, roles, value[1..], sofar[value[0].key := Coerced(f.value, value[0].v).value]);
      }
    }
  }

  lemma KeysStep(value: seq<KV>)
    requires value != []
    ensures Keys(value) == {value[0].key} + Keys(value[1..])
  {
    forall k
      ensures k in Keys(value) <==> k == value[0].key || k in Keys(value[1..])
    {
      if k in Keys(value) && k != value[0].key {
        var i :| 0 <= i < |value| && value[i].key == k;
        assert value[1..][i - 1].key == k;
      }
      if k in Keys(value[1..]) {
        var i :| 0 <= i < |value[1..]| && value[1..][i].key == k;
        assert value[i + 1].key == k;
      }
    }
  }

  /** What passes the gate has exactly the keys that were sent. */
  lemma PassKeys(cat: Catalog, c: Conn, m: Intent)
    requires GateOf(cat, c, m).Pass?
    ensures m.value.Some? && GateOf(cat, c, m).kv.Keys == Keys(m.value.value)
  {
    hide Exempt, EchoIn, Validated, Keys;
    ValidatedKeys(GateOf(cat, c, m).e, c.roles, m.value.value, map[]);
  }

  lemma CarriesIs(e: Entry, value: seq<KV>, kv: map<nat, IVal>, act: Action)
    requires e.IntentEntry? && kv.Keys == Keys(value)
    ensures Carries(e, value, act) <==> Has(e, act, kv)
  {
    if Has(e, act, kv) {
      var n :| 0 <= n < |e.schema| && e.schema[n].act == act && e.schema[n].key in kv;
      assert e.schema[n].key in Keys(value);
    }
    if Carries(e, value, act) {
      var n, i :| 0 <= n < |e.schema| && 0 <= i < |value| && e.schema[n].act == act && e.schema[n].key == value[i].key;
      assert e.schema[n].key in Keys(value);
    }
  }

  // ---- one move ---------------------------------------------------------------------------------------

  /** An intent that passes the gate and the trial rules, on no store and no verb of the hub's own, commands a move. */
  ghost predicate AsksMove(cat: Catalog, s: State, ev: Event) {
    Arrives(cat, s, ev) && ev.m.value.Some?
    && var e := GateOf(cat, s.conns[ev.sid], ev.m).e;
       !HasOps(e) && e.id != 0x0016 && !Carries(e, ev.m.value.value, StoreAct) && Carries(e, ev.m.value.value, CommandPosition)
  }

  /** A value a source drives the machine with: true, not zero, not empty; of a float neither a zero nor no number. */
  predicate Drives(v: Val) {
    match v
    case Num(r) => r != 0.0
    case Flag(on) => on
    case Text(b) => b != []
    case Single(q) =>
      var b0: int, b1: int, b2: int, b3: int := q.b0, q.b1, q.b2, q.b3;
      0 < b0 + 256 * b1 + 65536 * b2 + 16777216 * (b3 % 128) <= 0x7f80_0000
  }

  /** The place is a source of the catalog, and drives the machine. */
  ghost predicate Driven(cat: Catalog, vals: map<Loc, Val>, l: Loc) {
    && l in vals && Drives(vals[l])
    && exists e :: e in cat.entries && e.StateEntry? && e.id == l.ch && l.i < |e.layout| && e.layout[l.i].role == Source
  }

  lemma DrivesIs(v: Val)
    ensures Drives(v) <==> Truthy(v)
  {
  }

  lemma DrivenIs(cat: Catalog, vals: map<Loc, Val>, l: Loc)
    requires cat.WellFormed()
    ensures Driven(cat, vals, l) <==> Running(cat, vals, l)
  {
    hide Truthy, Drives;
    FoundIn(cat.entries, l.ch);
    if l in vals {
      DrivesIs(vals[l]);
    }
    if exists e :: e in cat.entries && e.StateEntry? && e.id == l.ch && l.i < |e.layout| && e.layout[l.i].role == Source {
      var e :| e in cat.entries && e.StateEntry? && e.id == l.ch && l.i < |e.layout| && e.layout[l.i].role == Source;
      FindsIt(cat.entries, e);
    }
  }

  /** The machine may move: no stop, no homing demand, and an override or neither pause nor source. */
  ghost predicate MayMove(cat: Catalog, s: State) {
    && !s.latch.estop && !s.latch.homeRequired
    && (s.latch.override || (!s.latch.paused && forall l :: !Driven(cat, s.vals, l)))
  }

  /** Why it may not, in the order in which it is told. */
  ghost function Hindrance(cat: Catalog, s: State): Nack {
    if s.latch.estop then EstopActive
    else if s.latch.homeRequired then NotHomed
    else if s.latch.paused then Interlock
    else SourceConflict
  }

  /** A source the intent would start. */
  ghost predicate WouldStart(cat: Catalog, s: State, ev: Event, l: Loc)
    requires ev.IntentFrame? && ev.sid in s.conns
  {
    var g := GateOf(cat, s.conns[ev.sid], ev.m);
    g.Pass? && Starts(cat, s, g.e.id, g.kv, l)
  }

  lemma MovePlan(cat: Catalog, s: State, ev: Event)
    requires AsksMove(cat, s, ev) && cat.WellFormed()
    ensures var g := GateOf(cat, s.conns[ev.sid], ev.m);
            var plan := PlanOf(cat, s, ev.sid, g.e, g.kv, OnTrial(cat, ev.m));
            && (!MayMove(cat, s) ==> plan == Refuse(Hindrance(cat, s)))
            && (MayMove(cat, s) ==>
                 (plan.Writes? <==> forall l :: WouldStart(cat, s, ev, l) ==> !s.latch.paused && !SourceRunning(cat, s.vals, Some(l))))
            && (plan.Writes? || plan.Refuse?)
  {
    hide GateOf, TrialRefusal, PlanSafety, PlanTrials, PlanStore, Has, Carries, HasOps, OpKey, Starts, Running, SourceRunning, Driven, cat.WellFormed;
    var g, value := GateOf(cat, s.conns[ev.sid], ev.m), ev.m.value.value;
    PassKeys(cat, s.conns[ev.sid], ev.m);
    OutranksIs(g.e, value);
    CarriesIs(g.e, value, g.kv, StoreAct);
    CarriesIs(g.e, value, g.kv, CommandPosition);
    AnyRunning(cat, s.vals);
    forall l
      ensures Driven(cat, s.vals, l) <==> Running(cat, s.vals, l)
    {
      DrivenIs(cat, s.vals, l);
    }
    if MayMove(cat, s) {
      StartsDecide(cat, s, g.e, g.kv);
      assert forall l :: WouldStart(cat, s, ev, l) <==> Starts(cat, s, g.e.id, g.kv, l);
    }
  }

  lemma StartsDecide(cat: Catalog, s: State, e: Entry, kv: map<nat, IVal>)
    requires e.IntentEntry? && MoveRefusal(cat, s, e, kv).None? && !s.latch.estop
    ensures WriteRefusal(cat, s, e, kv).None?
       <==> forall l :: Starts(cat, s, e.id, kv, l) ==> !s.latch.paused && !SourceRunning(cat, s.vals, Some(l))
  {
    hide MoveRefusal, Starts, SourceRunning;
    forall l | Starts(cat, s, e.id, kv, l)
      ensures l in s.vals
    {
      StartIn(cat, s, e.id, kv, l);
    }
  }

  lemma StartIn(cat: Catalog, s: State, ch: nat, kv: map<nat, IVal>, l: Loc)
    requires Starts(cat, s, ch, kv, l)
    ensures l in s.vals
  {
  }

  /**
   * A commanded move is refused while the machine may not move, with the code of the first hindrance and
   * with nothing changed, and otherwise carried out unless it would also start a source against a pause or
   * another source.
   */
  lemma MoveDecided(cat: Catalog, s: State, ev: Event)
    requires Fits(cat, s.vals) && AsksMove(cat, s, ev)
    ensures var r := OnIntent(cat, s, ev.sid, ev.m);
            && (!MayMove(cat, s) ==> r == Step(s, NackReply(Hindrance(cat, s))))
            && (MayMove(cat, s) ==>
                 (!r.reply.NackReply? <==> forall l :: WouldStart(cat, s, ev, l) ==> !s.latch.paused && !SourceRunning(cat, s.vals, Some(l))))
            && (r.reply.NackReply? ==> r.s == s)
  {
    hide GateOf, PlanOf, Followed, MayMove, WouldStart, SourceRunning, Carries, HasOps, Fits;
    GateOne(cat, s);
    MovePlan(cat, s, ev);
    var g := GateOf(cat, s.conns[ev.sid], ev.m);
    AnswerNoNack(cat, s, ev.sid, g.e, g.kv, ev.m.id, OnTrial(cat, ev.m), PlanOf(cat, s, ev.sid, g.e, g.kv, OnTrial(cat, ev.m)));
  }

  // ---- over a run --------------------------------------------------------------------------------------

  /** The event is a commanded move that the hub carries out. */
  ghost predicate Moves(cat: Catalog, s: State, ev: Event)
    requires Fits(cat, s.vals)
  {
    AsksMove(cat, s, ev) && !OnIntent(cat, s, ev.sid, ev.m).reply.NackReply?
  }

  lemma MovesMay(cat: Catalog, s: State, ev: Event)
    requires Fits(cat, s.vals) && Moves(cat, s, ev)
    ensures MayMove(cat, s)
  {
    hide OnIntent, MayMove, WouldStart, SourceRunning, AsksMove;
    MoveDecided(cat, s, ev);
  }

  lemma MovesUnlatched(cat: Catalog, s: State, ev: Event)
    requires Fits(cat, s.vals) && Moves(cat, s, ev)
    ensures !s.latch.estop && !s.latch.homeRequired
  {
    hide Moves;
    MovesMay(cat, s, ev);
  }

  lemma TraceFits(cat: Catalog, states: seq<State>, evs: seq<Event>, k: nat)
    requires Trace(cat, states, evs) && k < |states|
    ensures Fits(cat, states[k].vals)
  {
    hide Next;
  }

  /**
   * Between a stop's latch edge and the next move carried out, the machine was released, and then homed if
   * the stop cut its power.
   */
  lemma MoveAfterStop(cat: Catalog, states: seq<State>, evs: seq<Event>, i: nat, j: nat)
    returns (release: nat, home: nat)
    requires Trace(cat, states, evs) && |states| == |evs| + 1
    requires i < j < |evs| && !states[i].latch.estop && states[i + 1].latch.estop && Moves(cat, states[j], evs[j])
    ensures i < release < j && Operates(cat, states[release], evs[release], OP_RELEASE)
    ensures cat.cutsPower ==> release < home < j && Homes(cat, states[home], evs[home])
  {
    hide Trace, Moves, Operates, Homes;
    home := 0;
    TraceFits(cat, states, evs, j);
    MovesUnlatched(cat, states[j], evs[j]);
    var stopped := seq(|states|, k requires 0 <= k < |states| => states[k].latch.estop);
    var unhomed := seq(|states|, k requires 0 <= k < |states| => states[k].latch.homeRequired);
    release := Ceases(stopped, i + 1, j);
    StepLatch(cat, states, evs, release);
    if cat.cutsPower {
      StepLatch(cat, states, evs, i);
      home := Ceases(unhomed, i + 1, j);
      StepLatch(cat, states, evs, home);
      release := Ceases(stopped, i + 1, home);
      StepLatch(cat, states, evs, release);
    }
  }
}
