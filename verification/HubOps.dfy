/** How trial intents are answered, and what moves the configuration generation (clients/js/localhub.js). */
module HubOps {
  import opened Bytes
  import opened Packed
  import opened HubCatalog
  import opened Hub
  import opened HubPlaces
  import opened HubSteps
  import opened HubTrials
  import opened HubSafety
  import opened HubLayers
  import opened HubControl
  import opened HubAccess
  import opened HubMoves
  import opened HubReadings
  import PackedWrite

  // ---- trials ------------------------------------------------------------------------------------

  /** A key that was sent is of a setting another session has on trial. */
  ghost predicate Clashes(s: State, sid: nat, ch: nat, value: seq<KV>) {
    exists i :: 0 <= i < |value| && Setting(ch, value[i].key) in s.trials && s.trials[Setting(ch, value[i].key)].sid != sid
  }

  /** A trial of the setting may open: some place shows it, and none that does is a source or a secret. */
  ghost predicate Openable(cat: Catalog, vals: map<Loc, Val>, st: Setting) {
    && (exists l :: l in vals && cat.SettingOf(l) == Some(st))
    && (forall l :: l in vals && cat.SettingOf(l) == Some(st) ==> cat.HasLoc(l) && cat.At(l).role != Source && !cat.At(l).secret)
  }

  /** What may not be on trial: a safety operation, a trial operation, a verb, or a setting that is not openable. */
  ghost predicate Unfit(cat: Catalog, s: State, e: Entry, value: seq<KV>)
    requires e.IntentEntry?
  {
    || HasOps(e) || e.id == 0x0016 || (exists n :: 0 <= n < |e.schema| && e.schema[n].act in {StoreAct, HomeAct, OtherAct})
    || (exists i :: 0 <= i < |value| && Setting(e.id, value[i].key) !in s.trials && !Openable(cat, s.vals, Setting(e.id, value[i].key)))
  }

  lemma OpenableIs(cat: Catalog, vals: map<Loc, Val>, st: Setting)
    ensures Openable(cat, vals, st) <==> Trialable(cat, vals, st)
  {
    var b := Base(cat, vals, st);
    forall l
      ensures l in b <==> l in vals && cat.SettingOf(l) == Some(st)
    {
    }
    if b != map[] {
      var l :| l in b;
    }
  }

  lemma RulesAre(cat: Catalog, s: State, sid: nat, e: Entry, kv: map<nat, IVal>, value: seq<KV>, trial: bool)
    requires e.IntentEntry? && kv.Keys == Keys(value) && (trial ==> cat.TrialsOn())
    ensures TrialRefusal(cat, s, sid, e, kv, trial)
         == if cat.TrialsOn() && Clashes(s, sid, e.id, value) then Some(TrialConflict)
            else if trial && Unfit(cat, s, e, value) then Some(UnsupportedOp) else None
  {
    hide Trialable, Openable, OptionKey, cat.TrialsOn;
    OutranksIs(e, value);
    forall st
      ensures Openable(cat, s.vals, st) <==> Trialable(cat, s.vals, st)
    {
      OpenableIs(cat, s.vals, st);
    }
    forall k
      ensures k in kv <==> exists i :: 0 <= i < |value| && value[i].key == k
    {
      assert k in kv <==> k in Keys(value);
    }
  }

  /**
   * Of an intent that passes the gate the trial rules refuse, with nothing changed, what clashes with the
   * trial of another session, and what is sent for a trial and unfit for one; anything else arrives.
   */
  lemma TrialDecided(cat: Catalog, s: State, sid: nat, m: Intent)
    requires Fits(cat, s.vals) && sid in s.conns && GateOf(cat, s.conns[sid], m).Pass?
    ensures var g, r := GateOf(cat, s.conns[sid], m), OnIntent(cat, s, sid, m);
            && m.value.Some? && g.e.IntentEntry?
            && if cat.TrialsOn() && Clashes(s, sid, g.e.id, m.value.value) then r == Step(s, NackReply(TrialConflict))
               else if cat.TrialsOn() && m.trial && Unfit(cat, s, g.e, m.value.value) then r == Step(s, NackReply(UnsupportedOp))
               else Arrives(cat, s, IntentFrame(sid, m))
  {
    hide GateOf, PlanStore, PlanSafety, WriteRefusal, TrialRefusal, Perform, Clashes, Unfit, cat.TrialsOn, Fits, Has;
    var g := GateOf(cat, s.conns[sid], m);
    PassKeys(cat, s.conns[sid], m);
    RulesAre(cat, s, sid, g.e, g.kv, m.value.value, OnTrial(cat, m));
  }

  /** On settings-trial, 1 commits the trials of the session, 2 reverts them, and nothing else is carried out. */
  lemma EndAnswered(cat: Catalog, s: State, ev: Event)
    requires Fits(cat, s.vals) && Arrives(cat, s, ev) && cat.TrialsOn() && GateOf(cat, s.conns[ev.sid], ev.m).e.id == 0x0016
    ensures var g, r := GateOf(cat, s.conns[ev.sid], ev.m), OnIntent(cat, s, ev.sid, ev.m);
            if 1 in g.kv && g.kv[1] == INum(1.0) then Commits(cat, s, ev, ev.sid) && !r.reply.NackReply?
            else if 1 in g.kv && g.kv[1] == INum(2.0) then Reverts(cat, s, ev, ev.sid) && !r.reply.NackReply?
            else r == Step(s, NackReply(UnsupportedOp))
  {
    hide GateOf, TrialRefusal, PlanStore, PlanSafety, WriteRefusal, Followed, cat.TrialsOn, Fits, Has;
    var g := GateOf(cat, s.conns[ev.sid], ev.m);
    AnswerNoNack(cat, s, ev.sid, g.e, g.kv, ev.m.id, OnTrial(cat, ev.m), PlanOf(cat, s, ev.sid, g.e, g.kv, OnTrial(cat, ev.m)));
  }

  lemma TrialIsNoSource(cat: Catalog, s: State, st: Setting, l: Loc)
    requires Sound(cat, s) && st in s.trials && cat.SettingOf(l) == Some(st)
    ensures !cat.IsSource(l)
  {
    assert BaseFits(cat, st, s.trials[st].base);
  }

  lemma OpensNoSource(cat: Catalog, vals: map<Loc, Val>, st: Setting, l: Loc)
    requires Trialable(cat, vals, st) && l in vals && cat.SettingOf(l) == Some(st)
    ensures !cat.IsSource(l)
  {
    assert l in Base(cat, vals, st);
  }

  /** No place of a setting that is, or may come, on trial is a source. */
  lemma TrialStartsNothing(cat: Catalog, s: State, sid: nat, e: Entry, kv: map<nat, IVal>, l: Loc)
    requires Sound(cat, s) && e.IntentEntry? && cat.TrialsOn() && TrialRefusal(cat, s, sid, e, kv, true).None?
    ensures !Starts(cat, s, e.id, kv, l)
  {
    hide Truthy, HubCatalog.Says, OptionKey, cat.TrialsOn, cat.IsSource, Sound, Trialable;
    if WrittenAt(cat, e.id, kv, l).Some? && l in s.vals {
      var st := cat.SettingOf(l).value;
      if st in s.trials {
        TrialIsNoSource(cat, s, st, l);
      } else {
        OpensNoSource(cat, s.vals, st, l);
      }
    }
  }

  lemma TrialPlan(cat: Catalog, s: State, sid: nat, e: Entry, kv: map<nat, IVal>)
    requires Sound(cat, s) && e.IntentEntry? && cat.TrialsOn() && TrialRefusal(cat, s, sid, e, kv, true).None?
    requires !Has(e, CommandPosition, kv)
    ensures PlanOf(cat, s, sid, e, kv, true) == Writes(false)
  {
    hide Starts, Trialable, Sound, cat.TrialsOn;
    assert !Has(e, StoreAct, kv) && !Has(e, HomeAct, kv);
    forall l
      ensures !Starts(cat, s, e.id, kv, l)
    {
      TrialStartsNothing(cat, s, sid, e, kv, l);
    }
  }

  /** The setting is on trial by the session: as it was, or with what its places showed. */
  ghost predicate OnTrialOf(cat: Catalog, s: State, t: State, sid: nat, st: Setting) {
    && st in t.trials && t.trials[st].sid == sid
    && (st in s.trials ==> t.trials[st] == s.trials[st])
    && (st !in s.trials ==> forall l :: l in s.vals && cat.SettingOf(l) == Some(st) ==>
          l in t.trials[st].base && t.trials[st].base[l] == s.vals[l])
  }

  lemma TrialsPut(cat: Catalog, s: State, sid: nat, ch: nat, kv: map<nat, IVal>, k: nat)
    requires k in kv && (Setting(ch, k) in s.trials ==> s.trials[Setting(ch, k)].sid == sid)
    ensures OnTrialOf(cat, s, s.(trials := Settled(cat, s.vals, s.trials, sid, ch, kv, true)), sid, Setting(ch, k))
  {
    assert Setting(ch, k) in SettingsNamed(ch, kv);
  }

  /** A trial write that arrives and commands no move is carried out, and puts every setting it names on trial. */
  lemma TrialCarried(cat: Catalog, s: State, ev: Event)
    requires Sound(cat, s) && Arrives(cat, s, ev) && OnTrial(cat, ev.m) && ev.m.value.Some?
    requires !Carries(GateOf(cat, s.conns[ev.sid], ev.m).e, ev.m.value.value, CommandPosition)
    ensures Fits(cat, s.vals) && !OnIntent(cat, s, ev.sid, ev.m).reply.NackReply?
    ensures forall i :: 0 <= i < |ev.m.value.value| ==>
              OnTrialOf(cat, s, Next(cat, s, ev), ev.sid, Setting(GateOf(cat, s.conns[ev.sid], ev.m).e.id, ev.m.value.value[i].key))
  {
    hide GateOf, TrialRefusal, PlanOf, Followed, Perform, Next, Has, Carries, cat.TrialsOn, Fits, TrialsFit, OnTrialOf, Settled;
    var g, value := GateOf(cat, s.conns[ev.sid], ev.m), ev.m.value.value;
    PassKeys(cat, s.conns[ev.sid], ev.m);
    CarriesIs(g.e, value, g.kv, CommandPosition);
    TrialPlan(cat, s, ev.sid, g.e, g.kv);
    AnswerNoNack(cat, s, ev.sid, g.e, g.kv, ev.m.id, true, Writes(false));
    NextMachine(cat, s, ev);
    MachineTrials(cat, s, EffectOf(cat, s, ev));
    var t := s.(trials := Settled(cat, s.vals, s.trials, ev.sid, g.e.id, g.kv, true));
    assert Next(cat, s, ev).trials == t.trials;
    forall i | 0 <= i < |value|
      ensures OnTrialOf(cat, s, Next(cat, s, ev), ev.sid, Setting(g.e.id, value[i].key))
    {
      assert value[i].key in Keys(value);
      NoClash(cat, s, ev.sid, g.e, g.kv, value[i].key);
      TrialsPut(cat, s, ev.sid, g.e.id, g.kv, value[i].key);
      OnTrialSame(cat, s, t, Next(cat, s, ev), ev.sid, Setting(g.e.id, value[i].key));
    }
  }

  lemma OnTrialSame(cat: Catalog, s: State, t: State, u: State, sid: nat, st: Setting)
    requires OnTrialOf(cat, s, t, sid, st) && u.trials == t.trials
    ensures OnTrialOf(cat, s, u, sid, st)
  {
  }

  lemma NoClash(cat: Catalog, s: State, sid: nat, e: Entry, kv: map<nat, IVal>, k: nat)
    requires e.IntentEntry? && cat.TrialsOn() && TrialRefusal(cat, s, sid, e, kv, true).None? && k in kv
    ensures Setting(e.id, k) in s.trials ==> s.trials[Setting(e.id, k)].sid == sid
  {
    hide Trialable, cat.TrialsOn;
  }

  // ---- the configuration generation ----------------------------------------------------------------

  /** A settings write is carried out, and some place mirrors one of its keys. */
  ghost predicate WritesSome(cat: Catalog, s: State, ev: Event) {
    var x := EffectOf(cat, s, ev);
    x.Does? && x.plan.Writes? && exists l, k :: l in s.vals && k in x.kv && Mirrors(cat, l, x.e.id, k)
  }

  /** The trials of a session end by a revert, or with it, and some place of one shows other than its baseline. */
  ghost predicate MovesBack(cat: Catalog, s: State, ev: Event, sid: nat) {
    HubLayers.Reverts(cat, s, ev, sid)
    && exists st, l :: st in s.trials && s.trials[st].sid == sid && l in s.trials[st].base && l in s.vals && s.vals[l] != s.trials[st].base[l]
  }

  lemma WrittenSome(cat: Catalog, s: State, ch: nat, kv: map<nat, IVal>)
    requires Fits(cat, s.vals)
    ensures WriteChannels(cat, s, ch, kv) != {} <==> exists l, k :: l in s.vals && k in kv && Mirrors(cat, l, ch, k)
  {
    hide Mirrors, cat.SettingOf, cat.IsTarget;
    forall l | l in s.vals && WriteAt(cat, ch, kv, l).Some?
      ensures exists k :: k in kv && Mirrors(cat, l, ch, k)
    {
      MirrorsIs(cat, l, ch, cat.SettingOf(l).value.key);
    }
    forall l, k | l in s.vals && k in kv && Mirrors(cat, l, ch, k)
      ensures WriteAt(cat, ch, kv, l).Some?
    {
      MirrorsIs(cat, l, ch, k);
    }
    if exists l, k :: l in s.vals && k in kv && Mirrors(cat, l, ch, k) {
      var l, k :| l in s.vals && k in kv && Mirrors(cat, l, ch, k);
      assert l.ch in WriteChannels(cat, s, ch, kv);
    }
    if WriteChannels(cat, s, ch, kv) != {} {
      var c :| c in WriteChannels(cat, s, ch, kv);
      var l :| l in s.vals && WriteAt(cat, ch, kv, l).Some? && l.ch == c;
    }
  }

  lemma RevertedSome(cat: Catalog, s: State, sid: nat)
    requires Sound(cat, s)
    ensures RevertChannels(cat, s, sid) != {}
       <==> exists st, l :: st in s.trials && s.trials[st].sid == sid && l in s.trials[st].base && l in s.vals && s.vals[l] != s.trials[st].base[l]
  {
    hide Fits, cat.SettingOf;
    if RevertChannels(cat, s, sid) != {} {
      var c :| c in RevertChannels(cat, s, sid);
      var l :| l in s.vals && RevertValue(cat, s, sid, l).Some? && l.ch == c;
      assert s.trials[cat.SettingOf(l).value].base[l] != s.vals[l];
    }
    if exists st, l :: st in s.trials && s.trials[st].sid == sid && l in s.trials[st].base && l in s.vals && s.vals[l] != s.trials[st].base[l] {
      var st, l :| st in s.trials && s.trials[st].sid == sid && l in s.trials[st].base && l in s.vals && s.vals[l] != s.trials[st].base[l];
      assert BaseFits(cat, st, s.trials[st].base);
      assert l.ch in RevertChannels(cat, s, sid);
    }
  }

  /** Whether an effect moves the configuration on. */
  ghost predicate Configures(cat: Catalog, s: State, x: Effect) {
    match x
    case Does(sid, e, kv, _, plan) =>
      if plan.Writes? then WriteChannels(cat, s, e.id, kv) != {}
      else plan.EndAll? && !plan.commit && RevertChannels(cat, s, sid) != {}
    case Closes(sid) => RevertChannels(cat, s, sid) != {}
    case _ => false
  }

  function Stepped(gen: u16, yes: bool): u16 {
    if yes then (gen + 1) % 65536 else gen
  }

  lemma EndConfig(cat: Catalog, s: State, sid: nat, commit: bool)
    requires Fits(cat, s.vals)
    ensures var r := EndTrials(cat, s, sid, commit);
            r.s.cfgGen == s.cfgGen && (r.moved <==> !commit && RevertChannels(cat, s, sid) != {})
  {
    hide Fits, MaskValue, MaskChannels, RevertChannels;
  }

  lemma EstopConfig(cat: Catalog, s: State)
    requires Fits(cat, s.vals)
    ensures LatchEstop(cat, s).cfgGen == s.cfgGen
  {
    hide Fits;
  }

  lemma MutatedConfig(cat: Catalog, s: State, items: map<nat, Item>, d: StoreDesc)
    requires Fits(cat, s.vals)
    ensures Mutated(cat, s, items, d).cfgGen == s.cfgGen
  {
  }

  lemma EnactConfig(cat: Catalog, s: State, sid: nat, e: Entry, kv: map<nat, IVal>, trial: bool, plan: Plan)
    requires Fits(cat, s.vals) && !plan.Refuse?
    ensures var o := Enact(cat, s, sid, e.id, kv, plan);
            o.config == Configures(cat, s, Does(sid, e, kv, trial, plan)) && o.s.cfgGen == s.cfgGen
  {
    hide Fits, EndTrials, LatchEstop, Mutated, WriteChannels, RevertChannels, Written, Applied, RosterChannels;
    match plan
    case EstopNow => EstopConfig(cat, s);
    case Leaves(items, d) => MutatedConfig(cat, s, items, d);
    case EndAll(commit) => EndConfig(cat, s, sid, commit);
    case _ =>
  }

  lemma PerformConfig(cat: Catalog, s: State, sid: nat, e: Entry, kv: map<nat, IVal>, trial: bool, plan: Plan)
    requires Fits(cat, s.vals) && !plan.Refuse?
    ensures var o := Perform(cat, s, sid, e.id, kv, trial, plan);
            o.config == Configures(cat, s, Does(sid, e, kv, trial, plan)) && o.s.cfgGen == s.cfgGen
  {
    hide Enact, Configures, Fits, MaskValue, MaskChannels, Settled;
    EnactConfig(cat, s, sid, e, kv, trial, plan);
  }

  lemma IntentConfig(cat: Catalog, s: State, sid: nat, m: Intent)
    requires Fits(cat, s.vals) && sid in s.conns
    ensures var r, x := OnIntent(cat, s, sid, m), EffectOf(cat, s, IntentFrame(sid, m));
            && r.s.cfgGen == Stepped(s.cfgGen, Configures(cat, s, x))
            && (r.reply.EchoReply? && GateOf(cat, s.conns[sid], m).Pass? ==> r.reply.e.cfgGen == r.s.cfgGen)
  {
    hide GateOf, PlanOf, Perform, Configures, EchoThrows, EchoApplied;
    var g := GateOf(cat, s.conns[sid], m);
    if g.Pass? {
      var plan := PlanOf(cat, s, sid, g.e, g.kv, OnTrial(cat, m));
      if !plan.Refuse? {
        PerformConfig(cat, s, sid, g.e, g.kv, OnTrial(cat, m), plan);
        var o := Perform(cat, s, sid, g.e.id, g.kv, OnTrial(cat, m), plan);
        AnswerKeeps(cat, Bumped(o.s, o.config), sid, g.e, m.id, o);
      } else {
        assert !Configures(cat, s, Quiet) by { QuietNot(cat, s); }
      }
    } else {
      QuietNot(cat, s);
    }
  }

  lemma QuietNot(cat: Catalog, s: State)
    ensures !Configures(cat, s, Quiet) && !Configures(cat, s, Estops)
  {
  }

  lemma CloseConfig(cat: Catalog, s: State, sid: nat)
    requires Fits(cat, s.vals)
    ensures OnClose(cat, s, sid).cfgGen == Stepped(s.cfgGen, RevertChannels(cat, s, sid) != {})
  {
    hide Fits, EndTrials, RevertChannels;
    EndConfig(cat, Without(s, sid), sid, false);
    RevertsSame(cat, s, sid);
  }

  lemma RevertsSame(cat: Catalog, s: State, sid: nat)
    ensures RevertChannels(cat, Without(s, sid), sid) == RevertChannels(cat, s, sid)
  {
    hide BaselineOf;
  }

  lemma OtherConfig(cat: Catalog, s: State, ev: Event)
    requires Fits(cat, s.vals) && !ev.IntentFrame?
    ensures Next(cat, s, ev).cfgGen == Stepped(s.cfgGen, Configures(cat, s, EffectOf(cat, s, ev)))
  {
    hide Fits, OnIntent, LatchEstop, OnClose, Granted, Pushed1, RevertChannels;
    match ev
    case Close(sid) => CloseConfig(cat, s, sid);
    case EstopFrame => EstopConfig(cat, s);
    case _ =>
  }

  /**
   * The configuration generation moves by one, modulo 2^16, with each settings write that some place mirrors
   * and each revert or close that moves a value back, and with nothing else; an ECHO tells the one it moved to.
   */
  lemma ConfigCounts(cat: Catalog, s: State, ev: Event)
    requires Sound(cat, s)
    ensures Next(cat, s, ev).cfgGen == Stepped(s.cfgGen, WritesSome(cat, s, ev) || exists sid :: MovesBack(cat, s, ev, sid))
    ensures ev.IntentFrame? && ev.sid in s.conns && GateOf(cat, s.conns[ev.sid], ev.m).Pass? && OnIntent(cat, s, ev.sid, ev.m).reply.EchoReply?
        ==> OnIntent(cat, s, ev.sid, ev.m).reply.e.cfgGen == Next(cat, s, ev).cfgGen
  {
    hide GateOf, OnIntent, EffectOf, WriteChannels, RevertChannels, Mirrors, TrialsFit, Fits, MovesBack, Next;
    var x := EffectOf(cat, s, ev);
    if ev.IntentFrame? {
      IntentNext(cat, s, ev);
    }
    if ev.IntentFrame? && ev.sid in s.conns {
      IntentConfig(cat, s, ev.sid, ev.m);
    } else if !ev.IntentFrame? {
      OtherConfig(cat, s, ev);
    } else {
      assert x == Quiet by { StrangerQuiet(cat, s, ev); }
    }
    if x.Does? {
      WrittenSome(cat, s, x.e.id, x.kv);
    }
    MovesBackIs(cat, s, ev, x);
  }

  lemma MovesBackIs(cat: Catalog, s: State, ev: Event, x: Effect)
    requires x == EffectOf(cat, s, ev) && Sound(cat, s)
    ensures (exists sid :: MovesBack(cat, s, ev, sid))
       <==> (x.Does? || x.Closes?) && EndsAll(x) && (x.Does? ==> !x.plan.commit) && RevertChannels(cat, s, x.sid) != {}
  {
    hide EffectOf, RevertChannels, Sound;
    if x.Does? || x.Closes? {
      RevertedSome(cat, s, x.sid);
      assert MovesBack(cat, s, ev, x.sid) <==> EndsAll(x) && (x.Does? ==> !x.plan.commit) && RevertChannels(cat, s, x.sid) != {};
    }
    forall sid | MovesBack(cat, s, ev, sid)
      ensures (x.Does? || x.Closes?) && x.sid == sid
    {
    }
  }

  lemma IntentNext(cat: Catalog, s: State, ev: Event)
    requires Fits(cat, s.vals) && ev.IntentFrame?
    ensures Next(cat, s, ev) == if ev.sid in s.conns then OnIntent(cat, s, ev.sid, ev.m).s else s
  {
    hide OnIntent;
  }

  lemma StrangerQuiet(cat: Catalog, s: State, ev: Event)
    requires ev.IntentFrame? && ev.sid !in s.conns
    ensures EffectOf(cat, s, ev) == Quiet
  {
  }
}
