/** What one event does to the machine, apart from what the connections have been told. */
module HubSteps {
  import opened Bytes
  import opened Packed
  import opened HubCatalog
  import opened Hub
  import opened HubPlaces
  import opened HubTrials

  datatype Effect =
    | Quiet
    | Does(sid: nat, e: Entry, kv: map<nat, IVal>, trial: bool, plan: Plan)
    | Closes(sid: nat)
    | Estops

  function EffectOf(cat: Catalog, s: State, ev: Event): Effect {
    match ev
    case IntentFrame(sid, m) =>
      if sid !in s.conns then Quiet
      else IntentEffect(cat, s, sid, m, GateOf(cat, s.conns[sid], m))
    case Close(sid) => if sid in s.conns then Closes(sid) else Quiet
    case EstopFrame => Estops
    case _ => Quiet
  }

  function IntentEffect(cat: Catalog, s: State, sid: nat, m: Intent, g: Gate): Effect
    requires g.Pass? ==> g.e.IntentEntry?
  {
    if !g.Pass? then Quiet
    else
      var plan := PlanOf(cat, s, sid, g.e, g.kv, OnTrial(cat, m));
      if plan.Refuse? then Quiet else Does(sid, g.e, g.kv, OnTrial(cat, m), plan)
  }

  /** The machine is the same; only what peers have been told may differ. */
  ghost predicate SameMachine(a: State, b: State) {
    a.vals == b.vals && a.latch == b.latch && a.items == b.items && a.gens == b.gens && a.trials == b.trials
  }

  function Without(s: State, sid: nat): State {
    s.(conns := s.conns - {sid})
  }

  /** The machine after an effect. */
  ghost function Machine(cat: Catalog, s: State, x: Effect): (t: State)
    requires Fits(cat, s.vals) && (x.Does? ==> !x.plan.Refuse?)
    ensures Fits(cat, t.vals)
  {
    match x
    case Quiet => s
    case Does(sid, e, kv, trial, plan) => Perform(cat, s, sid, e.id, kv, trial, plan).s
    case Closes(sid) => EndTrials(cat, Without(s, sid), sid, false).s
    case Estops => LatchEstop(cat, s)
  }

  /** What is known of an effect that came from an event. */
  ghost predicate Proper(cat: Catalog, s: State, x: Effect) {
    match x
    case Does(sid, e, kv, trial, plan) => sid in s.conns && !plan.Refuse? && Admitted(cat, s, sid, e.id, kv, trial, plan)
    case _ => true
  }

  lemma FollowedMachine(cat: Catalog, s: State, sid: nat, e: Entry, kv: map<nat, IVal>, id: Option<nat>, trial: bool, plan: Plan)
    requires Fits(cat, s.vals) && e.IntentEntry? && !plan.Refuse?
    ensures SameMachine(Perform(cat, s, sid, e.id, kv, trial, plan).s, Followed(cat, s, sid, e, kv, id, trial, plan).s)
  {
    hide Perform;
    var o := Perform(cat, s, sid, e.id, kv, trial, plan);
    AnswerKeeps(cat, Bumped(o.s, o.config), sid, e, id, o);
  }

  lemma IntentMachine(cat: Catalog, s: State, sid: nat, m: Intent, g: Gate)
    requires Fits(cat, s.vals) && sid in s.conns && g == GateOf(cat, s.conns[sid], m)
    ensures var x := IntentEffect(cat, s, sid, m, g);
            Proper(cat, s, x) && SameMachine(Machine(cat, s, x), OnIntent(cat, s, sid, m).s)
  {
    hide Perform, Followed, PlanOf;
    if g.Pass? {
      var plan := PlanOf(cat, s, sid, g.e, g.kv, OnTrial(cat, m));
      PlanAdmits(cat, s, sid, g.e, g.kv, m);
      if plan.Refuse? {
        FollowedRefused(cat, s, sid, g.e, g.kv, m.id, OnTrial(cat, m), plan);
      } else {
        FollowedMachine(cat, s, sid, g.e, g.kv, m.id, OnTrial(cat, m), plan);
      }
    }
  }

  lemma FollowedRefused(cat: Catalog, s: State, sid: nat, e: Entry, kv: map<nat, IVal>, id: Option<nat>, trial: bool, plan: Plan)
    requires Fits(cat, s.vals) && e.IntentEntry? && plan.Refuse?
    ensures Followed(cat, s, sid, e, kv, id, trial, plan).s == s
  {
  }

  /** Every event changes the machine by its effect alone. */
  lemma NextMachine(cat: Catalog, s: State, ev: Event)
    requires Fits(cat, s.vals)
    ensures Proper(cat, s, EffectOf(cat, s, ev))
    ensures SameMachine(Machine(cat, s, EffectOf(cat, s, ev)), Next(cat, s, ev))
  {
    hide OnIntent, LatchEstop, EndTrials, Perform, GateOf, PlanOf;
    match ev
    case IntentFrame(sid, m) =>
      if sid in s.conns {
        IntentMachine(cat, s, sid, m, GateOf(cat, s.conns[sid], m));
      }
    case Close(sid) => ShownKeeps(EndTrials(cat, Without(s, sid), sid, false));
    case _ =>
  }
}
