/**
 * The safety latch and the sources over whole runs of the hub (clients/js/localhub.js): what an
 * emergency stop forces, and in which order a machine comes back from one.
 */
module HubSafety {
  import opened Bytes
  import opened Packed
  import opened HubCatalog
  import opened Hub
  import opened HubPlaces
  import opened HubTrials
  import opened HubSteps

  // ---- the latch, one effect at a time -----------------------------------------------------------

  /** The plan is the hub's own decision on this state. */
  ghost predicate Decided(cat: Catalog, s: State, x: Effect) {
    x.Does? ==> x.e.IntentEntry? && x.plan == PlanOf(cat, s, x.sid, x.e, x.kv, x.trial)
  }

  lemma EffectDecided(cat: Catalog, s: State, ev: Event)
    ensures Decided(cat, s, EffectOf(cat, s, ev))
  {
    hide GateOf, PlanOf;
  }

  function LatchAfter(cat: Catalog, L: Latch, x: Effect): Latch {
    match x
    case Estops => Estopped(cat, L)
    case Does(_, _, _, _, plan) =>
      (match plan
       case EstopNow => Estopped(cat, L)
       case To(latch) => latch
       case Writes(homed) => if homed then L.(homeRequired := false) else L
       case _ => L)
    case _ => L
  }

  lemma EnactLatch(cat: Catalog, s: State, sid: nat, e: Entry, kv: map<nat, IVal>, trial: bool, plan: Plan)
    requires Fits(cat, s.vals) && !plan.Refuse?
    ensures Enact(cat, s, sid, e.id, kv, plan).s.latch == LatchAfter(cat, s.latch, Does(sid, e, kv, trial, plan))
  {
    hide Fits, Mutated, EndTrials, Written, Applied, WriteChannels, Show, Stopped;
    match plan
    case Leaves(items, d) => MutatedLatch(cat, s, items, d);
    case EndAll(commit) => EndLatch(cat, s, sid, commit);
    case _ =>
  }

  lemma EndLatch(cat: Catalog, s: State, sid: nat, commit: bool)
    requires Fits(cat, s.vals)
    ensures EndTrials(cat, s, sid, commit).s.latch == s.latch
  {
    hide Fits;
  }

  lemma EstopLatch(cat: Catalog, s: State)
    requires Fits(cat, s.vals)
    ensures LatchEstop(cat, s).latch == Estopped(cat, s.latch)
  {
    hide Fits;
  }

  lemma MachineLatch(cat: Catalog, s: State, x: Effect)
    requires Fits(cat, s.vals) && (x.Does? ==> !x.plan.Refuse?)
    ensures Machine(cat, s, x).latch == LatchAfter(cat, s.latch, x)
  {
    hide Fits, Enact, EndTrials, LatchEstop, LatchAfter;
    match x
    case Does(sid, e, kv, trial, plan) => EnactLatch(cat, s, sid, e, kv, trial, plan);
    case _ => OtherLatch(cat, s, x);
  }

  lemma OtherLatch(cat: Catalog, s: State, x: Effect)
    requires Fits(cat, s.vals) && !x.Does?
    ensures Machine(cat, s, x).latch == LatchAfter(cat, s.latch, x)
  {
    hide Fits, EndTrials, LatchEstop;
    match x
    case Closes(sid) => EndLatch(cat, Without(s, sid), sid, false);
    case Estops => EstopLatch(cat, s);
    case _ =>
  }

  lemma MutatedLatch(cat: Catalog, s: State, items: map<nat, Item>, d: StoreDesc)
    requires Fits(cat, s.vals)
    ensures Mutated(cat, s, items, d).latch == s.latch
  {
  }

  /** A safety operation clears the stop only by release, and the pause only by resume. */
  lemma SafetyMoves(L: Latch, op: Option<IVal>)
    ensures var plan := PlanSafety(L, op);
            && !plan.Writes?
            && (plan.To? ==>
                 var M := plan.latch;
                 && M.homeRequired == L.homeRequired && M.estopSeq == L.estopSeq
                 && (M.estop ==> L.estop)
                 && (L.estop && !M.estop ==> op == Some(INum(OP_RELEASE)) && M.paused)
                 && (L.paused && !M.paused ==>
                      op == Some(INum(OP_RESUME)) && !L.estop && !L.override && !L.homeRequired)
                 && (LatchOk(L) ==> LatchOk(M)))
  {
  }

  /** A pause outlasts the override, and a stop excludes it. */
  predicate LatchOk(L: Latch) {
    (L.override ==> L.paused) && (L.estop ==> !L.override)
  }

  /** A write that starts a source meets neither a stop, nor a pause, nor another source. */
  lemma WriteStarts(cat: Catalog, s: State, e: Entry, kv: map<nat, IVal>, l: Loc)
    requires e.IntentEntry? && WriteRefusal(cat, s, e, kv).None? && Starts(cat, s, e.id, kv, l)
    ensures !s.latch.estop && !s.latch.paused && !SourceRunning(cat, s.vals, Some(l))
  {
  }

  lemma PlanWrites(cat: Catalog, s: State, sid: nat, e: Entry, kv: map<nat, IVal>, trial: bool)
    requires e.IntentEntry?
    ensures var plan := PlanOf(cat, s, sid, e, kv, trial);
            && (plan.To? ==> OpKey(e).Some? && plan == PlanSafety(s.latch, OpOf(e, kv)))
            && (plan.Writes? ==>
                 && WriteRefusal(cat, s, e, kv).None?
                 && (plan.homed ==> Has(e, HomeAct, kv) && s.latch.homeRequired && !s.latch.estop))
  {
    hide TrialRefusal, SourceRunning, Starts;
    if OpKey(e).Some? {
      SafetyMoves(s.latch, OpOf(e, kv));
    }
  }

  // ---- events --------------------------------------------------------------------------------------

  /** The event is a safety operation `op` that the hub carries out. */
  ghost predicate Operates(cat: Catalog, s: State, ev: Event, op: real) {
    var x := EffectOf(cat, s, ev);
    x.Does? && x.e.IntentEntry? && OpKey(x.e).Some? && OpOf(x.e, x.kv) == Some(INum(op))
  }

  /** The event is a homing that the hub carries out. */
  ghost predicate Homes(cat: Catalog, s: State, ev: Event) {
    var x := EffectOf(cat, s, ev);
    x.Does? && x.e.IntentEntry? && Has(x.e, HomeAct, x.kv) && x.plan.Writes?
  }

  /** What one event may clear. */
  ghost predicate Clears(cat: Catalog, s: State, ev: Event, M: Latch) {
    var L := s.latch;
    && (L.estop && !M.estop ==> Operates(cat, s, ev, OP_RELEASE) && M.paused)
    && (L.homeRequired && !M.homeRequired ==> Homes(cat, s, ev) && !L.estop)
    && (L.paused && !M.paused ==>
         Operates(cat, s, ev, OP_RESUME) && !L.estop && !L.override && !L.homeRequired)
  }

  ghost predicate Latches(cat: Catalog, L: Latch, M: Latch) {
    && (!L.estop && M.estop ==> (cat.cutsPower ==> M.homeRequired) && M.estopSeq == (L.estopSeq + 1) % 0x1_0000)
    && (!(!L.estop && M.estop) ==> M.estopSeq == L.estopSeq)
    && (LatchOk(L) ==> LatchOk(M))
  }

  lemma LatchMoves(cat: Catalog, s: State, ev: Event, x: Effect)
    requires x == EffectOf(cat, s, ev) && Decided(cat, s, x)
    ensures Clears(cat, s, ev, LatchAfter(cat, s.latch, x)) && Latches(cat, s.latch, LatchAfter(cat, s.latch, x))
  {
    hide EffectOf, PlanOf, WriteRefusal, PlanSafety;
    if x.Does? {
      PlanWrites(cat, s, x.sid, x.e, x.kv, x.trial);
      if OpKey(x.e).Some? {
        SafetyMoves(s.latch, OpOf(x.e, x.kv));
      }
    }
  }

  /** What an event clears and latches. */
  lemma NextLatch(cat: Catalog, s: State, ev: Event)
    requires Fits(cat, s.vals)
    ensures Clears(cat, s, ev, Next(cat, s, ev).latch) && Latches(cat, s.latch, Next(cat, s, ev).latch)
  {
    hide Next, EffectOf, LatchAfter, Machine, Clears, Latches;
    var x := EffectOf(cat, s, ev);
    NextMachine(cat, s, ev);
    EffectDecided(cat, s, ev);
    MachineLatch(cat, s, x);
    LatchMoves(cat, s, ev, x);
  }

  // ---- sources ----------------------------------------------------------------------------------------

  /** A source place after an effect. */
  function MovedTo(cat: Catalog, s: State, x: Effect, l: Loc): Option<Val> {
    match x
    case Quiet => None
    case Does(sid, e, kv, trial, plan) => PutAt(cat, s, sid, e.id, kv, plan, l)
    case Closes(sid) => RevertValue(cat, Without(s, sid), sid, l)
    case Estops => if !s.latch.estop && Running(cat, s.vals, l) then Some(Num(0.0)) else None
  }

  lemma MachinePlace(cat: Catalog, s: State, x: Effect, l: Loc)
    requires Fits(cat, s.vals) && cat.Apart() && l in s.vals && (x.Does? ==> !x.plan.Refuse?)
    requires cat.IsSource(l) || cat.SettingOf(l).Some?
    ensures Machine(cat, s, x).vals[l] == After(cat, s.vals, l, MovedTo(cat, s, x, l))
  {
    hide Perform, EndTrials, PutAt;
    match x
    case Does(sid, e, kv, trial, plan) => PerformPlace(cat, s, sid, e.id, kv, trial, plan, l);
    case Closes(sid) => EndPlace(cat, Without(s, sid), sid, false, l);
    case _ =>
  }

  /** A trial's baseline never holds a source. */
  lemma NoSourceReverts(cat: Catalog, s: State, sid: nat, l: Loc)
    requires Sound(cat, s) && cat.IsSource(l)
    ensures RevertValue(cat, s, sid, l).None?
  {
  }

  lemma PlaceStarts(cat: Catalog, s: State, x: Effect, l: Loc)
    requires Sound(cat, s) && cat.Apart() && Decided(cat, s, x) && cat.IsSource(l) && l in s.vals
    requires !Truthy(s.vals[l]) && Truthy(After(cat, s.vals, l, MovedTo(cat, s, x, l)))
    ensures x.Does? && x.plan.Writes? && Starts(cat, s, x.e.id, x.kv, l)
  {
    hide PlanOf;
    var w := MovedTo(cat, s, x, l);
    if x.Closes? {
      NoSourceReverts(cat, s, x.sid, l);
    } else if x.Does? {
      NoSourceReverts(cat, s, x.sid, l);
    }
    if !Truthy(w.value) {
      FalsyStored(cat, l, w.value);
    }
  }

  /** A source starts only by an accepted write, with no stop, no pause and no other source in force. */
  lemma NextStarts(cat: Catalog, s: State, ev: Event, l: Loc)
    requires Sound(cat, s) && cat.Apart()
    requires !Running(cat, s.vals, l) && Running(cat, Next(cat, s, ev).vals, l)
    ensures var x := EffectOf(cat, s, ev);
            && x.Does? && x.e.IntentEntry? && x.plan.Writes? && Starts(cat, s, x.e.id, x.kv, l)
            && !s.latch.estop && !s.latch.paused && !SourceRunning(cat, s.vals, Some(l))
  {
    hide Next, EffectOf, Machine, PlanOf, MovedTo, Starts, SourceRunning, WriteRefusal;
    var x := EffectOf(cat, s, ev);
    NextMachine(cat, s, ev);
    EffectDecided(cat, s, ev);
    MachinePlace(cat, s, x, l);
    PlaceStarts(cat, s, x, l);
    PlanWrites(cat, s, x.sid, x.e, x.kv, x.trial);
    WriteStarts(cat, s, x.e, x.kv, l);
  }

  /** The latch is coherent, and nothing runs under a stop. */
  ghost predicate Safe(cat: Catalog, s: State) {
    LatchOk(s.latch) && (s.latch.estop ==> forall l :: !Running(cat, s.vals, l))
  }

  /** The effects that latch a stop. */
  lemma StopEdge(cat: Catalog, s: State, x: Effect)
    requires Decided(cat, s, x) && !s.latch.estop && LatchAfter(cat, s.latch, x).estop
    ensures x.Estops? || (x.Does? && x.plan.EstopNow?)
  {
    hide PlanOf;
    if x.Does? {
      PlanWrites(cat, s, x.sid, x.e, x.kv, x.trial);
      if OpKey(x.e).Some? {
        SafetyMoves(s.latch, OpOf(x.e, x.kv));
      }
    }
  }

  lemma EdgeStops(cat: Catalog, s: State, x: Effect, l: Loc)
    requires Sound(cat, s) && cat.Apart() && !s.latch.estop && (x.Estops? || (x.Does? && x.plan.EstopNow?))
    ensures !Running(cat, Machine(cat, s, x).vals, l)
  {
    hide Perform, LatchEstop;
    if cat.IsSource(l) && l in Machine(cat, s, x).vals {
      MachinePlace(cat, s, x, l);
      FalsyStored(cat, l, Num(0.0));
    }
  }

  /** Every event keeps: an override is paused, a stop ends the override, and nothing runs under a stop. */
  lemma NextSafe(cat: Catalog, s: State, ev: Event)
    requires Sound(cat, s) && cat.Apart() && Safe(cat, s)
    ensures Safe(cat, Next(cat, s, ev))
  {
    hide Next, EffectOf, LatchAfter, Machine, Running, PlanOf;
    var t, x := Next(cat, s, ev), EffectOf(cat, s, ev);
    NextLatch(cat, s, ev);
    if t.latch.estop {
      forall l
        ensures !Running(cat, t.vals, l)
      {
        if s.latch.estop {
          if Running(cat, t.vals, l) {
            NextStarts(cat, s, ev, l);
          }
        } else {
          NextMachine(cat, s, ev);
          EffectDecided(cat, s, ev);
          MachineLatch(cat, s, x);
          StopEdge(cat, s, x);
          EdgeStops(cat, s, x, l);
        }
      }
    }
  }

  // ---- runs --------------------------------------------------------------------------------------------

  lemma {:induction false} TraceSafe(cat: Catalog, states: seq<State>, evs: seq<Event>, k: nat)
    requires Trace(cat, states, evs) && Sound(cat, states[0]) && cat.Apart() && Safe(cat, states[0]) && k < |states|
    ensures Safe(cat, states[k])
  {
    hide Next, Safe, Sound;
    if k > 0 {
      TraceSafe(cat, states, evs, k - 1);
      TraceSound(cat, states, evs, k - 1);
      NextSafe(cat, states[k - 1], evs[k - 1]);
    }
  }

  /** What holds at `i` and not at `j` ceases at a step between. */
  lemma {:induction false} Ceases(p: seq<bool>, i: nat, j: nat) returns (k: nat)
    requires i < j < |p| && p[i] && !p[j]
    ensures i <= k < j && p[k] && !p[k + 1]
  {
    k := j - 1;
    if !p[k] {
      k := Ceases(p, i, k);
    }
  }

  /** `estop_seq` moved once for each edge of the first `n` steps. */
  function Edges(states: seq<State>, n: nat): nat
    requires n < |states|
  {
    if n == 0 then 0
    else Edges(states, n - 1) + (if !states[n - 1].latch.estop && states[n].latch.estop then 1 else 0)
  }

  /** The stop counter counts latch edges, however often a stop is repeated. */
  lemma {:induction false} CountsEdges(cat: Catalog, states: seq<State>, evs: seq<Event>, n: nat)
    requires Trace(cat, states, evs) && n < |states|
    ensures states[n].latch.estopSeq == (states[0].latch.estopSeq + Edges(states, n)) % 0x1_0000
  {
    hide Next;
    if n > 0 {
      CountsEdges(cat, states, evs, n - 1);
      NextLatch(cat, states[n - 1], evs[n - 1]);
      assert states[n] == Next(cat, states[n - 1], evs[n - 1]);
    }
  }

  lemma StepLatch(cat: Catalog, states: seq<State>, evs: seq<Event>, k: nat)
    requires Trace(cat, states, evs) && k < |evs| && |states| == |evs| + 1
    ensures Clears(cat, states[k], evs[k], states[k + 1].latch) && Latches(cat, states[k].latch, states[k + 1].latch)
  {
    hide Next, Clears, Latches;
    NextLatch(cat, states[k], evs[k]);
  }

  lemma StepStarts(cat: Catalog, states: seq<State>, evs: seq<Event>, k: nat, l: Loc)
    requires Trace(cat, states, evs) && Sound(cat, states[0]) && cat.Apart() && k < |evs| && |states| == |evs| + 1
    requires !Running(cat, states[k].vals, l) && Running(cat, states[k + 1].vals, l)
    ensures !states[k].latch.estop && !states[k].latch.paused
  {
    hide Next, Sound, Running;
    TraceSound(cat, states, evs, k);
    NextStarts(cat, states[k], evs[k], l);
  }

  /**
   * Between a stop's latch edge and the next source start, the machine was released, then homed if
   * the stop cut its power, then resumed.
   */
  lemma RestartOrder(cat: Catalog, states: seq<State>, evs: seq<Event>, i: nat, j: nat, l: Loc)
    returns (release: nat, home: nat, resume: nat)
    requires Trace(cat, states, evs) && Sound(cat, states[0]) && cat.Apart() && |states| == |evs| + 1
    requires i < j < |evs| && !states[i].latch.estop && states[i + 1].latch.estop
    requires !Running(cat, states[j].vals, l) && Running(cat, states[j + 1].vals, l)
    ensures i < release < resume < j
    ensures Operates(cat, states[release], evs[release], OP_RELEASE)
    ensures Operates(cat, states[resume], evs[resume], OP_RESUME)
    ensures cat.cutsPower ==> release < home < resume && Homes(cat, states[home], evs[home])
  {
    hide Trace, Sound, Running, Operates, Homes, cat.Apart;
    home := 0;
    StepStarts(cat, states, evs, j, l);
    var stopped := seq(|states|, k requires 0 <= k < |states| => states[k].latch.estop);
    var paused := seq(|states|, k requires 0 <= k < |states| => states[k].latch.paused);
    var unhomed := seq(|states|, k requires 0 <= k < |states| => states[k].latch.homeRequired);
    release := Ceases(stopped, i + 1, j);
    StepLatch(cat, states, evs, release);
    resume := Ceases(paused, release + 1, j);
    StepLatch(cat, states, evs, resume);
    if cat.cutsPower {
      StepLatch(cat, states, evs, i);
      home := Ceases(unhomed, i + 1, resume);
      StepLatch(cat, states, evs, home);
      release := Ceases(stopped, i + 1, home);
      StepLatch(cat, states, evs, release);
    }
  }
}
