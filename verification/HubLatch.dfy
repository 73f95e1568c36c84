/** The whole latch after every event, and the answer to every safety operation (clients/js/localhub.js). */
module HubLatch {
  import opened Bytes
  import opened Packed
  import opened HubCatalog
  import opened Hub
  import opened HubSteps
  import opened HubTrials
  import opened HubSafety
  import opened HubControl
  import opened HubAccess

  /** The event is an emergency stop: the raw frame, or the operation carried out. */
  ghost predicate Stops(cat: Catalog, s: State, ev: Event) {
    ev.EstopFrame? || Operates(cat, s, ev, 6.0)
  }

  /** The stop latches: it was not in force. */
  ghost predicate Trips(cat: Catalog, s: State, ev: Event) {
    Stops(cat, s, ev) && !s.latch.estop
  }

  /** What one event makes of a latch `L`. */
  ghost predicate Moved(cat: Catalog, s: State, ev: Event, M: Latch) {
    var L := s.latch;
    && (M.estop <==> Stops(cat, s, ev) || (L.estop && !Operates(cat, s, ev, 1.0)))
    && (M.paused <==> Operates(cat, s, ev, 4.0) || Operates(cat, s, ev, 7.0) || (Operates(cat, s, ev, 1.0) && L.estop)
                      || (L.paused && !Operates(cat, s, ev, 5.0)))
    && (M.override <==> Operates(cat, s, ev, 7.0) || (L.override && !Operates(cat, s, ev, 8.0) && !Trips(cat, s, ev)))
    && (M.homeRequired <==> (Trips(cat, s, ev) && cat.cutsPower) || (L.homeRequired && !Homes(cat, s, ev)))
    && M.estopSeq == (L.estopSeq + if Trips(cat, s, ev) then 1 else 0) % 65536
    && M.cause == (if Trips(cat, s, ev) || (!L.paused && (Operates(cat, s, ev, 4.0) || Operates(cat, s, ev, 7.0))) then 0 else L.cause)
    && M.owner == L.owner && M.wordRest == L.wordRest && M.modesRest == L.modesRest
  }

  /** The same of a latch and an operation that is carried out. */
  predicate MovedBy(cat: Catalog, L: Latch, op: real, M: Latch) {
    var trips := op == 6.0 && !L.estop;
    && (M.estop <==> op == 6.0 || (L.estop && op != 1.0))
    && (M.paused <==> op == 4.0 || op == 7.0 || (op == 1.0 && L.estop) || (L.paused && op != 5.0))
    && (M.override <==> op == 7.0 || (L.override && op != 8.0 && !trips))
    && (M.homeRequired <==> (trips && cat.cutsPower) || L.homeRequired)
    && M.estopSeq == (L.estopSeq + if trips then 1 else 0) % 65536
    && M.cause == (if trips || (!L.paused && (op == 4.0 || op == 7.0)) then 0 else L.cause)
    && M.owner == L.owner && M.wordRest == L.wordRest && M.modesRest == L.modesRest
  }

  lemma OperationMoves(cat: Catalog, L: Latch, op: real)
    ensures var plan := PlanSafety(L, Some(INum(op)));
            !plan.Refuse? ==> MovedBy(cat, L, op, Planned(cat, L, plan))
  {
  }

  lemma OnlyNumbers(L: Latch, op: Option<IVal>)
    ensures !PlanSafety(L, op).Refuse? ==> op.Some? && op.value.INum?
    ensures var plan := PlanSafety(L, op); plan.Refuse? || plan.Keep? || plan.EstopNow? || plan.To?
  {
  }

  lemma PlannedAfter(cat: Catalog, L: Latch, x: Effect)
    requires x.Does? && (x.plan.Keep? || x.plan.EstopNow? || x.plan.To?)
    ensures LatchAfter(cat, L, x) == Planned(cat, L, x.plan)
  {
  }

  lemma StopMoves(cat: Catalog, s: State, ev: Event)
    requires ev.EstopFrame?
    ensures Moved(cat, s, ev, Estopped(cat, s.latch))
  {
  }

  lemma OperatesIs(cat: Catalog, s: State, ev: Event, x: Effect, op: real, r: real)
    requires x == EffectOf(cat, s, ev) && x.Does? && x.e.IntentEntry? && OpKey(x.e).Some? && OpOf(x.e, x.kv) == Some(INum(op))
    ensures Operates(cat, s, ev, r) <==> op == r
  {
    hide EffectOf;
  }

  lemma OperatesNot(cat: Catalog, s: State, ev: Event, x: Effect, r: real)
    requires x == EffectOf(cat, s, ev) && (!x.Does? || (x.e.IntentEntry? && OpKey(x.e).None?))
    ensures !Operates(cat, s, ev, r)
  {
    hide EffectOf;
  }

  /** A safety operation is no homing. */
  lemma SafetyHomesNot(cat: Catalog, s: State, ev: Event, x: Effect)
    requires x == EffectOf(cat, s, ev) && x.Does? && !x.plan.Writes?
    ensures !Homes(cat, s, ev)
  {
    hide EffectOf;
  }

  lemma OtherMoves(cat: Catalog, s: State, ev: Event, x: Effect)
    requires x == EffectOf(cat, s, ev) && Decided(cat, s, x) && !x.Estops? && (x.Does? ==> x.e.IntentEntry? && OpKey(x.e).None? && !x.plan.Refuse?)
    ensures Moved(cat, s, ev, LatchAfter(cat, s.latch, x))
  {
    hide EffectOf, PlanOf, PlanSafety, WriteRefusal, Operates, Has;
    forall r
      ensures !Operates(cat, s, ev, r)
    {
      OperatesNot(cat, s, ev, x, r);
    }
    FrameEffect(cat, s, ev);
    if x.Does? {
      PlanPauses(cat, s, x);
      PlanWrites(cat, s, x.sid, x.e, x.kv, x.trial);
      if x.plan.Writes? {
        WritesHome(cat, s, x);
      }
    }
  }

  /** A settings write homes the machine exactly if it homes and that is asked for. */
  lemma WritesHome(cat: Catalog, s: State, x: Effect)
    requires Decided(cat, s, x) && x.Does? && x.plan.Writes?
    ensures x.plan.homed <==> Has(x.e, HomeAct, x.kv) && s.latch.homeRequired
  {
    hide TrialRefusal, WriteRefusal, PlanSafety, Has, PlanStore;
    SafetyWritesNot(s.latch);
    PlanStoreKinds(cat, s.items, x.e, x.kv);
  }

  lemma SafetyWritesNot(L: Latch)
    ensures forall op :: !PlanSafety(L, op).Writes?
  {
  }

  lemma FrameEffect(cat: Catalog, s: State, ev: Event)
    ensures EffectOf(cat, s, ev).Estops? <==> ev.EstopFrame?
  {
    hide GateOf, PlanOf;
  }

  /**
   * After every event, each part of the latch is what the operations carried out have made of it: no other
   * event touches it, and what this hub does not know is carried along.
   */
  lemma LatchLaw(cat: Catalog, s: State, ev: Event)
    requires Fits(cat, s.vals)
    ensures Moved(cat, s, ev, Next(cat, s, ev).latch)
  {
    hide Next, EffectOf, LatchAfter, Machine, PlanOf, PlanSafety, Moved, Planned, MovedBy;
    var x := EffectOf(cat, s, ev);
    NextMachine(cat, s, ev);
    EffectDecided(cat, s, ev);
    MachineLatch(cat, s, x);
    FrameEffect(cat, s, ev);
    if x.Estops? {
      StopMoves(cat, s, ev);
      assert LatchAfter(cat, s.latch, x) == Estopped(cat, s.latch) by { StopAfter(cat, s.latch, x); }
    } else if x.Does? && OpKey(x.e).Some? {
      PlanPauses(cat, s, x);
      var op := OpOf(x.e, x.kv);
      OnlyNumbers(s.latch, op);
      OperationMoves(cat, s.latch, op.value.r);
      PlannedAfter(cat, s.latch, x);
      OperatedMoves(cat, s, ev, x, op.value.r, Planned(cat, s.latch, x.plan));
    } else {
      OtherMoves(cat, s, ev, x);
    }
  }

  lemma StopAfter(cat: Catalog, L: Latch, x: Effect)
    requires x.Estops?
    ensures LatchAfter(cat, L, x) == Estopped(cat, L)
  {
  }

  lemma OperatedMoves(cat: Catalog, s: State, ev: Event, x: Effect, op: real, M: Latch)
    requires x == EffectOf(cat, s, ev) && x.Does? && x.e.IntentEntry? && OpKey(x.e).Some? && OpOf(x.e, x.kv) == Some(INum(op))
    requires !x.plan.Writes? && MovedBy(cat, s.latch, op, M) && !ev.EstopFrame?
    ensures Moved(cat, s, ev, M)
  {
    hide EffectOf, Operates, Homes;
    forall r
      ensures Operates(cat, s, ev, r) <==> op == r
    {
      OperatesIs(cat, s, ev, x, op, r);
    }
    SafetyHomesNot(cat, s, ev, x);
  }

  // ---- answers ---------------------------------------------------------------------------------------

  /**
   * A safety operation that is admitted is answered so: a resume is refused under a stop, an override or a
   * homing demand, in this order, an override under a stop, and no other operation but an unknown one;
   * what is refused changes nothing.
   */
  lemma SafetyAnswered(cat: Catalog, s: State, ev: Event, op: real)
    requires Fits(cat, s.vals) && Asks(cat, s, ev, op)
    ensures var r, L := OnIntent(cat, s, ev.sid, ev.m), s.latch;
            if (op == 5.0 || op == 7.0) && L.estop then r == Step(s, NackReply(EstopActive))
            else if op == 5.0 && L.override then r == Step(s, NackReply(Interlock))
            else if op == 5.0 && L.homeRequired then r == Step(s, NackReply(NotHomed))
            else if op == 1.0 || op == 4.0 || op == 5.0 || op == 6.0 || op == 7.0 || op == 8.0 then
              !r.reply.NackReply? && Operates(cat, s, ev, op)
            else r == Step(s, NackReply(UnsupportedOp))
  {
    hide GateOf, PlanOf, Followed, TrialRefusal, Operates, Next, Fits;
    var g := GateOf(cat, s.conns[ev.sid], ev.m);
    AskedPlan(cat, s, ev, op);
    AskedLatch(cat, s, ev, op);
    AnswerNoNack(cat, s, ev.sid, g.e, g.kv, ev.m.id, OnTrial(cat, ev.m), PlanOf(cat, s, ev.sid, g.e, g.kv, OnTrial(cat, ev.m)));
  }
}
