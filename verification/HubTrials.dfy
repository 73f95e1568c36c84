/**
 * Trial writes (clients/js/localhub.js): live values with saved baselines, seen as a persisted
 * store and one overlay per session.
 */
module HubTrials {
  import opened Bytes
  import opened Packed
  import opened HubCatalog
  import opened Hub
  import opened HubPlaces
  import PackedWrite

  // ---- what every state keeps ------------------------------------------------------------------

  /** A trial's baseline covers exactly the places of its setting, none of them a source or a secret. */
  ghost predicate BaseFits(cat: Catalog, st: Setting, base: map<Loc, Val>) {
    && (forall l :: l in base <==> cat.SettingOf(l) == Some(st))
    && (forall l :: l in base ==> cat.At(l).role != Source && !cat.At(l).secret)
  }

  /** Baselines are sound, and every trial belongs to an open session. */
  ghost predicate TrialsFit(cat: Catalog, trials: map<Setting, Trial>, sids: set<nat>) {
    forall st :: st in trials ==> BaseFits(cat, st, trials[st].base) && trials[st].sid in sids
  }

  ghost predicate Sound(cat: Catalog, s: State) {
    && Fits(cat, s.vals)
    && TrialsFit(cat, s.trials, s.conns.Keys)
    && (!cat.TrialsOn() ==> s.trials == map[])
  }

  /** Nothing but the trials themselves and the connections' progress changed. */
  ghost predicate SameTrials(a: State, b: State) {
    a.trials == b.trials && a.conns.Keys == b.conns.Keys
  }

  lemma EstopTrials(cat: Catalog, s: State)
    requires Fits(cat, s.vals)
    ensures SameTrials(s, LatchEstop(cat, s))
  {
    hide Fits;
  }

  lemma MutatedTrials(cat: Catalog, s: State, items: map<nat, Item>, d: StoreDesc)
    requires Fits(cat, s.vals)
    ensures SameTrials(s, Mutated(cat, s, items, d))
  {
  }

  /** Ending trials drops those of the session and no other. */
  lemma EndDrops(cat: Catalog, s: State, sid: nat, commit: bool)
    requires Fits(cat, s.vals)
    ensures var t := EndTrials(cat, s, sid, commit).s; t.trials == Dropped(s.trials, sid) && t.conns == s.conns
  {
    hide Fits, MaskValue, RevertValue;
  }

  lemma EnactTrials(cat: Catalog, s: State, sid: nat, ch: nat, kv: map<nat, IVal>, plan: Plan)
    requires Fits(cat, s.vals) && !plan.Refuse?
    ensures var t := Enact(cat, s, sid, ch, kv, plan).s;
            && t.conns.Keys == s.conns.Keys
            && t.trials == if plan.EndAll? then Dropped(s.trials, sid) else s.trials
  {
    hide EndTrials, LatchEstop, Mutated, Fits, Applied, WriteChannels, RosterChannels, StoreAt;
    match plan
    case EstopNow => EstopTrials(cat, s);
    case Leaves(items, d) => MutatedTrials(cat, s, items, d);
    case EndAll(commit) => EndDrops(cat, s, sid, commit);
    case _ =>
  }

  /** What the checks before a plan establish: no other session's trial, and trials only where they may open. */
  ghost predicate Admitted(cat: Catalog, s: State, sid: nat, ch: nat, kv: map<nat, IVal>, trial: bool, plan: Plan) {
    && (trial ==> cat.TrialsOn() && plan == Writes(false))
    && (plan.EndAll? ==> cat.TrialsOn())
    && (cat.TrialsOn() ==> forall k :: k in kv && Setting(ch, k) in s.trials ==> s.trials[Setting(ch, k)].sid == sid)
    && (trial ==> forall k :: k in kv && Setting(ch, k) !in s.trials ==> Trialable(cat, s.vals, Setting(ch, k)))
  }

  lemma PlanAdmits(cat: Catalog, s: State, sid: nat, e: Entry, kv: map<nat, IVal>, m: Intent)
    requires e.IntentEntry?
    ensures var plan := PlanOf(cat, s, sid, e, kv, OnTrial(cat, m));
            !plan.Refuse? ==> Admitted(cat, s, sid, e.id, kv, OnTrial(cat, m), plan)
  {
    var trial := OnTrial(cat, m);
    if TrialRefusal(cat, s, sid, e, kv, trial).None? && trial {
      forall k | k in kv && Setting(e.id, k) !in s.trials
        ensures Trialable(cat, s.vals, Setting(e.id, k))
      {
      }
    }
  }

  /** A trial that may open has a sound baseline. */
  lemma OpensFit(cat: Catalog, vals: map<Loc, Val>, st: Setting)
    requires Fits(cat, vals) && Trialable(cat, vals, st)
    ensures BaseFits(cat, st, Base(cat, vals, st))
  {
    forall l
      ensures l in Base(cat, vals, st) <==> cat.SettingOf(l) == Some(st)
    {
      cat.Placed(l);
    }
  }

  lemma SettledFit(cat: Catalog, s: State, sid: nat, ch: nat, kv: map<nat, IVal>, trial: bool, plan: Plan)
    requires Sound(cat, s) && sid in s.conns && Admitted(cat, s, sid, ch, kv, trial, plan)
    ensures TrialsFit(cat, Settled(cat, s.vals, s.trials, sid, ch, kv, trial), s.conns.Keys)
  {
    var after := Settled(cat, s.vals, s.trials, sid, ch, kv, trial);
    forall st | st in after
      ensures BaseFits(cat, st, after[st].base) && after[st].sid in s.conns.Keys
    {
      if st !in s.trials {
        OpensFit(cat, s.vals, st);
      }
    }
  }

  lemma PerformSound(cat: Catalog, s: State, sid: nat, ch: nat, kv: map<nat, IVal>, trial: bool, plan: Plan)
    requires Sound(cat, s) && sid in s.conns && !plan.Refuse? && Admitted(cat, s, sid, ch, kv, trial, plan)
    ensures Sound(cat, Perform(cat, s, sid, ch, kv, trial, plan).s)
  {
    hide Enact, Masked, Settled, BaseFits;
    EnactTrials(cat, s, sid, ch, kv, plan);
    SettledFit(cat, s, sid, ch, kv, trial, plan);
    var o := Enact(cat, s, sid, ch, kv, plan);
    MaskedTrials(cat, o.s.(trials := Settled(cat, s.vals, o.s.trials, sid, ch, kv, trial)));
  }

  lemma MaskedTrials(cat: Catalog, s: State)
    requires Fits(cat, s.vals)
    ensures SameTrials(s, Masked(cat, s))
  {
  }

  /** The answer to an intent touches only what peers have been told. */
  lemma AnswerKeeps(cat: Catalog, b: State, sid: nat, e: Entry, id: Option<nat>, o: Outcome)
    requires e.IntentEntry?
    ensures var t := Answered(b, sid, e, id, o).s;
            t.vals == b.vals && t.latch == b.latch && t.items == b.items && t.gens == b.gens && SameTrials(b, t)
            && t.cfgGen == b.cfgGen
  {
  }

  lemma FollowedSound(cat: Catalog, s: State, sid: nat, e: Entry, kv: map<nat, IVal>, id: Option<nat>, trial: bool, plan: Plan)
    requires Sound(cat, s) && sid in s.conns && e.IntentEntry?
    requires !plan.Refuse? ==> Admitted(cat, s, sid, e.id, kv, trial, plan)
    ensures Sound(cat, Followed(cat, s, sid, e, kv, id, trial, plan).s)
  {
    if !plan.Refuse? {
      PerformSound(cat, s, sid, e.id, kv, trial, plan);
      var o := Perform(cat, s, sid, e.id, kv, trial, plan);
      AnswerKeeps(cat, Bumped(o.s, o.config), sid, e, id, o);
    }
  }

  lemma IntentSound(cat: Catalog, s: State, sid: nat, m: Intent)
    requires Sound(cat, s) && sid in s.conns
    ensures Sound(cat, OnIntent(cat, s, sid, m).s)
  {
    match GateOf(cat, s.conns[sid], m)
    case Stop(_) =>
    case Replay(_) =>
    case Pass(e, kv) =>
      PlanAdmits(cat, s, sid, e, kv, m);
      FollowedSound(cat, s, sid, e, kv, m.id, OnTrial(cat, m), PlanOf(cat, s, sid, e, kv, OnTrial(cat, m)));
  }

  lemma ShownKeeps(r: Ended)
    ensures var t := Show(Bumped(r.s, r.moved), r.changed); t.vals == r.s.vals && SameTrials(r.s, t)
  {
  }

  lemma CloseSound(cat: Catalog, s: State, sid: nat)
    requires Sound(cat, s)
    ensures Sound(cat, OnClose(cat, s, sid))
  {
    var t := s.(conns := s.conns - {sid});
    EndDrops(cat, t, sid, false);
    ShownKeeps(EndTrials(cat, t, sid, false));
  }

  /** Every event keeps the trials sound: no trial outlives its session. */
  lemma NextSound(cat: Catalog, s: State, ev: Event)
    requires Sound(cat, s)
    ensures Sound(cat, Next(cat, s, ev))
  {
    hide OnIntent, OnClose, LatchEstop;
    match ev
    case IntentFrame(sid, m) =>
      if sid in s.conns {
        IntentSound(cat, s, sid, m);
      }
    case EstopFrame => EstopTrials(cat, s);
    case Close(sid) => CloseSound(cat, s, sid);
    case _ =>
  }

  lemma {:induction false} TraceSound(cat: Catalog, states: seq<State>, evs: seq<Event>, k: nat)
    requires Trace(cat, states, evs) && Sound(cat, states[0]) && k < |states|
    ensures Sound(cat, states[k])
  {
    hide Next, Sound;
    if k > 0 {
      TraceSound(cat, states, evs, k - 1);
      NextSound(cat, states[k - 1], evs[k - 1]);
    }
  }
}
