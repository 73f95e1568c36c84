/**
 * Trials as two layers (clients/js/localhub.js): a persisted store, and over it the values each
 * session has on trial. The hub keeps live values and saved baselines instead; it refines this.
 */
module HubLayers {
  import opened Bytes
  import opened Packed
  import opened HubCatalog
  import opened Hub
  import opened HubPlaces
  import opened HubTrials
  import opened HubSteps
  import opened HubSafety
  import PackedWrite

  /** One setting on trial: whose it is, and the values it shows. */
  datatype Over = Over(sid: nat, vals: map<Loc, Val>)

  datatype Layers = Layers(persisted: map<Loc, Val>, overlays: map<Setting, Over>)

  /** What a place of a setting shows. */
  function Visible(L: Layers, st: Setting, l: Loc): Val
    requires l in L.persisted
  {
    if st in L.overlays && l in L.overlays[st].vals then L.overlays[st].vals[l] else L.persisted[l]
  }

  function SettingAt(cat: Catalog, l: Loc): Setting
    requires cat.SettingOf(l).Some?
  {
    cat.SettingOf(l).value
  }

  /** A trial write: the touched settings go on the writer's overlay; the store is not written. */
  ghost function TrialWrite(cat: Catalog, L: Layers, sid: nat, touched: set<Setting>, w: map<Loc, Val>): Layers {
    L.(overlays := map st | st in L.overlays.Keys + touched ::
         Over(if st in L.overlays then L.overlays[st].sid else sid,
              map l | l in L.persisted && cat.SettingOf(l) == Some(st) ::
                if l in w then w[l] else Visible(L, st, l)))
  }

  /** A plain write: the store takes what is written, and of the touched settings what they showed. */
  ghost function PlainWrite(cat: Catalog, L: Layers, touched: set<Setting>, w: map<Loc, Val>): Layers {
    Layers(
      map l | l in L.persisted ::
        if l in w then w[l]
        else if cat.SettingOf(l).Some? && SettingAt(cat, l) in touched then Visible(L, SettingAt(cat, l), l)
        else L.persisted[l],
      map st | st in L.overlays && st !in touched :: L.overlays[st])
  }

  ghost function Others(overlays: map<Setting, Over>, sid: nat): map<Setting, Over> {
    map st | st in overlays && overlays[st].sid != sid :: overlays[st]
  }

  /** A commit: the session's overlay goes down into the store. */
  ghost function Commit(cat: Catalog, L: Layers, sid: nat): Layers {
    Layers(
      map l | l in L.persisted ::
        if cat.SettingOf(l).Some? && SettingAt(cat, l) in L.overlays && L.overlays[SettingAt(cat, l)].sid == sid
        then Visible(L, SettingAt(cat, l), l) else L.persisted[l],
      Others(L.overlays, sid))
  }

  /** A revert: the session's overlay is taken off; the store is as it was. */
  ghost function Revert(L: Layers, sid: nat): Layers {
    L.(overlays := Others(L.overlays, sid))
  }

  // ---- the hub's state as layers ---------------------------------------------------------------

  function PersistedAt(vals: map<Loc, Val>, trials: map<Setting, Trial>, st: Setting, l: Loc): Val
    requires l in vals
  {
    if st in trials && l in trials[st].base then trials[st].base[l] else vals[l]
  }

  ghost function LayersFrom(cat: Catalog, vals: map<Loc, Val>, trials: map<Setting, Trial>): Layers {
    Layers(map l | l in vals && cat.SettingOf(l).Some? :: PersistedAt(vals, trials, SettingAt(cat, l), l),
           map st | st in trials :: Over(trials[st].sid, Base(cat, vals, st)))
  }

  ghost function LayersOf(cat: Catalog, s: State): Layers {
    LayersFrom(cat, s.vals, s.trials)
  }

  /** The live values are what the layers show. */
  lemma ShowsLive(cat: Catalog, s: State, l: Loc)
    requires Sound(cat, s) && l in s.vals && cat.SettingOf(l).Some?
    ensures l in LayersOf(cat, s).persisted && Visible(LayersOf(cat, s), SettingAt(cat, l), l) == s.vals[l]
  {
  }

  ghost function Touched(cat: Catalog, ch: nat, kv: map<nat, IVal>): set<Setting> {
    if cat.TrialsOn() then SettingsNamed(ch, kv) else {}
  }

  /** What an effect stores, at the places of settings it writes. */
  ghost function Stores(cat: Catalog, s: State, x: Effect): map<Loc, Val>
    requires Fits(cat, s.vals)
  {
    map l | l in s.vals && cat.SettingOf(l).Some? && MovedTo(cat, s, x, l).Some? ::
      After(cat, s.vals, l, MovedTo(cat, s, x, l))
  }

  /** The step of the two-layer store that an effect stands for. */
  ghost function LayerStep(cat: Catalog, s: State, x: Effect): Layers
    requires Fits(cat, s.vals)
  {
    var L := LayersOf(cat, s);
    match x
    case Quiet => L
    case Closes(sid) => Revert(L, sid)
    case Estops => PlainWrite(cat, L, {}, Stores(cat, s, x))
    case Does(sid, e, kv, trial, plan) =>
      if plan.EndAll? then (if plan.commit then Commit(cat, L, sid) else Revert(L, sid))
      else if trial then TrialWrite(cat, L, sid, Touched(cat, e.id, kv), Stores(cat, s, x))
      else PlainWrite(cat, L, Touched(cat, e.id, kv), Stores(cat, s, x))
  }

  // ---- places under a trial -----------------------------------------------------------------------

  /** No effect of another session writes a setting that is on trial. */
  lemma OthersKeep(cat: Catalog, s: State, x: Effect, l: Loc)
    requires Sound(cat, s) && Proper(cat, s, x) && l in s.vals && cat.SettingOf(l).Some?
    requires SettingAt(cat, l) in s.trials
    requires !((x.Does? || x.Closes?) && x.sid == s.trials[SettingAt(cat, l)].sid)
    ensures MovedTo(cat, s, x, l).None?
  {
  }

  /** A place whose value the writer could put back: a string must leave room for one zero. */
  predicate Holds(cat: Catalog, l: Loc, v: Val) {
    cat.HasLoc(l) && Known(cat.At(l).f.kind) && PackedWrite.Restorable(cat.At(l).f, v)
  }

  /** A revert or a close puts the baseline back exactly where it shows already or can be put back. */
  lemma RevertPlace(cat: Catalog, s: State, sid: nat, l: Loc)
    requires Sound(cat, s) && l in s.vals && cat.SettingOf(l).Some? && HeldBy(s.trials, SettingAt(cat, l), sid)
    ensures l in s.trials[SettingAt(cat, l)].base
    ensures var b := s.trials[SettingAt(cat, l)].base[l];
            After(cat, s.vals, l, RevertValue(cat, s, sid, l)) == b <==> s.vals[l] == b || Holds(cat, l, b)
  {
    var v := s.trials[SettingAt(cat, l)].base[l];
    cat.Placed(l);
    PackedWrite.RestoreExact(cat.single, cat.At(l).f, v);
  }

  // ---- refinement ------------------------------------------------------------------------------------

  ghost function TrialsAfter(cat: Catalog, s: State, x: Effect): map<Setting, Trial> {
    match x
    case Closes(sid) => Dropped(s.trials, sid)
    case Does(sid, e, kv, trial, plan) =>
      if plan.EndAll? then Dropped(s.trials, sid)
      else if !cat.TrialsOn() then s.trials
      else Settled(cat, s.vals, s.trials, sid, e.id, kv, trial)
    case _ => s.trials
  }

  lemma MachineTrials(cat: Catalog, s: State, x: Effect)
    requires Sound(cat, s) && Proper(cat, s, x)
    ensures Machine(cat, s, x).trials == TrialsAfter(cat, s, x)
  {
    hide Enact, EndTrials, LatchEstop, Settled;
    match x
    case Does(sid, e, kv, trial, plan) => EnactTrials(cat, s, sid, e.id, kv, plan);
    case Closes(sid) => EndDrops(cat, Without(s, sid), sid, false);
    case Estops => EstopTrials(cat, s);
    case Quiet =>
  }

  /** A state whose settings and trials are those after an effect. */
  ghost predicate Moved(cat: Catalog, s: State, x: Effect, t: State)
    requires Fits(cat, s.vals)
  {
    && t.vals.Keys == s.vals.Keys
    && (forall l :: l in s.vals && cat.SettingOf(l).Some? ==> t.vals[l] == After(cat, s.vals, l, MovedTo(cat, s, x, l)))
    && t.trials == TrialsAfter(cat, s, x)
  }

  lemma MachineMoved(cat: Catalog, s: State, x: Effect)
    requires Sound(cat, s) && Proper(cat, s, x) && cat.Apart()
    ensures Moved(cat, s, x, Machine(cat, s, x))
  {
    hide Machine, MovedTo, TrialsAfter;
    MachineTrials(cat, s, x);
    forall l | l in s.vals && cat.SettingOf(l).Some?
      ensures Machine(cat, s, x).vals[l] == After(cat, s.vals, l, MovedTo(cat, s, x, l))
    {
      MachinePlace(cat, s, x, l);
    }
  }

  /** The session an effect acts for, if any. */
  ghost predicate By(x: Effect, sid: nat) {
    (x.Does? || x.Closes?) && x.sid == sid
  }

  ghost predicate EndsAll(x: Effect) {
    x.Closes? || (x.Does? && x.plan.EndAll?)
  }

  /** Every place of a trial shows its baseline already, or can be put back to it. */
  ghost predicate CanRevert(cat: Catalog, s: State, st: Setting)
    requires st in s.trials
  {
    forall l :: l in s.trials[st].base && l in s.vals ==>
      s.vals[l] == s.trials[st].base[l] || Holds(cat, l, s.trials[st].base[l])
  }

  /** Whatever trials the effect reverts can be reverted. */
  ghost predicate PutsBack(cat: Catalog, s: State, x: Effect) {
    EndsAll(x) && (x.Does? ==> !x.plan.commit) ==> forall st :: st in s.trials && s.trials[st].sid == x.sid ==> CanRevert(cat, s, st)
  }

  /** What the layers' step leaves in the persisted store at a place. */
  ghost function PersistedNext(cat: Catalog, s: State, x: Effect, l: Loc): Val
    requires Fits(cat, s.vals) && l in s.vals && cat.SettingOf(l).Some?
  {
    var st, w := SettingAt(cat, l), MovedTo(cat, s, x, l);
    if EndsAll(x) then
      if x.Does? && x.plan.commit && HeldBy(s.trials, st, x.sid) then s.vals[l] else PersistedAt(s.vals, s.trials, st, l)
    else if x.Does? && x.trial then PersistedAt(s.vals, s.trials, st, l)
    else if w.Some? then After(cat, s.vals, l, w)
    else if x.Does? && st in Touched(cat, x.e.id, x.kv) then s.vals[l]
    else PersistedAt(s.vals, s.trials, st, l)
  }

  lemma RevertMoves(cat: Catalog, s: State, x: Effect, l: Loc)
    requires Sound(cat, s) && EndsAll(x) && (x.Does? ==> !x.plan.commit)
    requires l in s.vals && cat.SettingOf(l).Some? && HeldBy(s.trials, SettingAt(cat, l), x.sid)
    ensures l in s.trials[SettingAt(cat, l)].base
    ensures var b := s.trials[SettingAt(cat, l)].base[l];
            After(cat, s.vals, l, MovedTo(cat, s, x, l)) == b <==> s.vals[l] == b || Holds(cat, l, b)
  {
    hide After, TrialsFit, Holds;
    RevertPlace(cat, s, x.sid, l);
  }

  /** Ending trials moves nothing but what a revert puts back. */
  lemma EndMoves(cat: Catalog, s: State, x: Effect, l: Loc)
    requires Sound(cat, s) && l in s.vals && cat.SettingOf(l).Some? && EndsAll(x)
    ensures (x.Does? && x.plan.commit) || !HeldBy(s.trials, SettingAt(cat, l), x.sid) ==> MovedTo(cat, s, x, l).None?
  {
    hide TrialsFit, Fits;
  }

  lemma PersistedEnd(cat: Catalog, s: State, x: Effect, t: State, l: Loc)
    requires Sound(cat, s) && Moved(cat, s, x, t) && l in s.vals && cat.SettingOf(l).Some? && EndsAll(x) && PutsBack(cat, s, x)
    ensures PersistedAt(t.vals, t.trials, SettingAt(cat, l), l) == PersistedNext(cat, s, x, l)
  {
    hide MovedTo, TrialsFit, StoredAt, Holds;
    EndMoves(cat, s, x, l);
    if HeldBy(s.trials, SettingAt(cat, l), x.sid) && !(x.Does? && x.plan.commit) {
      RevertMoves(cat, s, x, l);
    }
  }

  /** A trial write moves only the settings its intent names. */
  lemma TrialTouches(cat: Catalog, s: State, x: Effect, l: Loc)
    requires Fits(cat, s.vals) && x.Does? && Proper(cat, s, x) && x.trial && cat.SettingOf(l).Some?
    ensures MovedTo(cat, s, x, l).Some? ==> SettingAt(cat, l) in Touched(cat, x.e.id, x.kv)
  {
    hide Fits;
  }

  lemma PersistedTrial(cat: Catalog, s: State, x: Effect, t: State, l: Loc)
    requires Sound(cat, s) && Moved(cat, s, x, t) && l in s.vals && cat.SettingOf(l).Some?
    requires x.Does? && Proper(cat, s, x) && x.trial
    ensures PersistedAt(t.vals, t.trials, SettingAt(cat, l), l) == PersistedNext(cat, s, x, l)
  {
    hide MovedTo, StoredAt;
    TrialTouches(cat, s, x, l);
  }

  /** An effect writes only the settings its intent names. */
  lemma WritesTouched(cat: Catalog, s: State, x: Effect, l: Loc)
    requires Sound(cat, s) && Proper(cat, s, x) && l in s.vals && cat.SettingOf(l).Some? && !EndsAll(x)
    requires SettingAt(cat, l) in s.trials && MovedTo(cat, s, x, l).Some?
    ensures x.Does? && SettingAt(cat, l) in Touched(cat, x.e.id, x.kv)
  {
  }

  lemma PersistedPlain(cat: Catalog, s: State, x: Effect, t: State, l: Loc)
    requires Sound(cat, s) && Moved(cat, s, x, t) && l in s.vals && cat.SettingOf(l).Some?
    requires !EndsAll(x) && Proper(cat, s, x) && !(x.Does? && x.trial)
    ensures PersistedAt(t.vals, t.trials, SettingAt(cat, l), l) == PersistedNext(cat, s, x, l)
  {
    hide MovedTo;
    var st := SettingAt(cat, l);
    if st in s.trials && MovedTo(cat, s, x, l).Some? {
      WritesTouched(cat, s, x, l);
    }
  }

  /** The hub's persisted layer moves as the two-layer store's. */
  lemma PersistedMoves(cat: Catalog, s: State, x: Effect, t: State, l: Loc)
    requires Sound(cat, s) && Moved(cat, s, x, t) && l in s.vals && cat.SettingOf(l).Some? && Proper(cat, s, x) && PutsBack(cat, s, x)
    ensures PersistedAt(t.vals, t.trials, SettingAt(cat, l), l) == PersistedNext(cat, s, x, l)
  {
    hide PersistedAt, PersistedNext, Moved, Sound, Proper, PutsBack;
    if EndsAll(x) {
      PersistedEnd(cat, s, x, t, l);
    } else if x.Does? && x.trial {
      PersistedTrial(cat, s, x, t, l);
    } else {
      PersistedPlain(cat, s, x, t, l);
    }
  }

  lemma StepPersisted(cat: Catalog, s: State, x: Effect, l: Loc)
    requires Sound(cat, s) && l in s.vals && cat.SettingOf(l).Some?
    ensures l in LayerStep(cat, s, x).persisted && LayerStep(cat, s, x).persisted[l] == PersistedNext(cat, s, x, l)
  {
    hide PersistedAt, Touched, Visible, Sound, After, PutAt, RevertValue, Running;
    ShowsLive(cat, s, l);
  }

  // ---- the overlays ------------------------------------------------------------------------------------

  lemma HolderAt(cat: Catalog, s: State, x: Effect, st: Setting)
    requires Sound(cat, s) && Proper(cat, s, x)
    ensures st in LayerStep(cat, s, x).overlays <==> st in TrialsAfter(cat, s, x)
    ensures st in TrialsAfter(cat, s, x) ==> LayerStep(cat, s, x).overlays[st].sid == TrialsAfter(cat, s, x)[st].sid
  {
    hide MovedTo, After, Visible, PersistedAt, Stores, TrialsFit, Base, Trialable, Fits, cat.SettingOf, cat.TrialsOn;
  }

  /** A setting on trial after an effect: whose it is. */
  lemma HolderMoves(cat: Catalog, s: State, x: Effect, t: State)
    requires Sound(cat, s) && Moved(cat, s, x, t) && Proper(cat, s, x)
    ensures LayerStep(cat, s, x).overlays.Keys == t.trials.Keys
    ensures forall st :: st in t.trials ==> LayerStep(cat, s, x).overlays[st].sid == t.trials[st].sid
  {
    hide MovedTo, After, LayerStep, TrialsAfter, TrialsFit, Proper;
    forall st
      ensures st in LayerStep(cat, s, x).overlays <==> st in t.trials
      ensures st in t.trials ==> LayerStep(cat, s, x).overlays[st].sid == t.trials[st].sid
    {
      HolderAt(cat, s, x, st);
    }
  }

  /** A setting that stays on trial is written by trial writes alone. */
  lemma StaysPut(cat: Catalog, s: State, x: Effect, l: Loc)
    requires Sound(cat, s) && Proper(cat, s, x) && l in s.vals && cat.SettingOf(l).Some?
    requires SettingAt(cat, l) in s.trials && SettingAt(cat, l) in TrialsAfter(cat, s, x)
    requires !(x.Does? && x.trial)
    ensures MovedTo(cat, s, x, l).None?
  {
    hide MovedTo;
    if !By(x, s.trials[SettingAt(cat, l)].sid) {
      OthersKeep(cat, s, x, l);
    } else if MovedTo(cat, s, x, l).Some? && !EndsAll(x) {
      WritesTouched(cat, s, x, l);
    }
  }

  lemma OverlayKept(cat: Catalog, s: State, x: Effect, t: State, st: Setting)
    requires Sound(cat, s) && Moved(cat, s, x, t) && Proper(cat, s, x) && !(x.Does? && x.trial)
    requires st in t.trials && st in s.trials
    ensures Base(cat, t.vals, st) == Base(cat, s.vals, st)
  {
    hide MovedTo, TrialsAfter;
    forall l | l in s.vals && cat.SettingOf(l) == Some(st)
      ensures t.vals[l] == s.vals[l]
    {
      StaysPut(cat, s, x, l);
    }
  }

  lemma OverlayWritten(cat: Catalog, s: State, x: Effect, t: State, st: Setting)
    requires Sound(cat, s) && Moved(cat, s, x, t) && x.Does? && x.trial && Proper(cat, s, x)
    requires st in LayerStep(cat, s, x).overlays
    ensures LayerStep(cat, s, x).overlays[st].vals == Base(cat, t.vals, st)
  {
    hide PersistedAt, MovedTo, Visible, TrialsAfter, Touched, TrialsFit;
    var vs := LayerStep(cat, s, x).overlays[st].vals;
    forall l | l in s.vals && cat.SettingOf(l) == Some(st)
      ensures l in vs && vs[l] == t.vals[l]
    {
      ShowsLive(cat, s, l);
    }
  }

  /** The values a setting on trial shows after an effect. */
  lemma OverlayMoves(cat: Catalog, s: State, x: Effect, t: State, st: Setting)
    requires Sound(cat, s) && Moved(cat, s, x, t) && Proper(cat, s, x)
    requires st in t.trials && st in LayerStep(cat, s, x).overlays
    ensures LayerStep(cat, s, x).overlays[st].vals == Base(cat, t.vals, st)
  {
    hide Moved, Sound, Base, PersistedAt, MovedTo, TrialsAfter, TrialWrite, Stores;
    if x.Does? && x.trial {
      OverlayWritten(cat, s, x, t, st);
    } else {
      OverlayKept(cat, s, x, t, st);
    }
  }

  lemma StepKeys(cat: Catalog, s: State, x: Effect, t: State)
    requires Sound(cat, s) && Moved(cat, s, x, t)
    ensures LayersOf(cat, t).persisted.Keys == LayerStep(cat, s, x).persisted.Keys
    ensures forall l :: l in LayersOf(cat, t).persisted ==> l in s.vals && cat.SettingOf(l).Some?
  {
    hide PersistedAt, MovedTo, TrialsAfter, Stores, TrialsFit;
  }

  lemma SamePersisted(cat: Catalog, s: State, x: Effect, t: State, l: Loc)
    requires Sound(cat, s) && Moved(cat, s, x, t) && l in s.vals && cat.SettingOf(l).Some? && Proper(cat, s, x) && PutsBack(cat, s, x)
    ensures l in LayersOf(cat, t).persisted && l in LayerStep(cat, s, x).persisted
    ensures LayersOf(cat, t).persisted[l] == LayerStep(cat, s, x).persisted[l]
  {
    hide PersistedAt, MovedTo, TrialsAfter, LayerStep, Sound, PersistedNext, PutsBack;
    PersistedMoves(cat, s, x, t, l);
    StepPersisted(cat, s, x, l);
  }

  lemma SameOverlay(cat: Catalog, s: State, x: Effect, t: State, st: Setting)
    requires Sound(cat, s) && Moved(cat, s, x, t) && Proper(cat, s, x)
    requires st in LayersOf(cat, t).overlays && st in LayerStep(cat, s, x).overlays
    ensures LayersOf(cat, t).overlays[st] == LayerStep(cat, s, x).overlays[st]
  {
    hide Moved, LayerStep, Sound, Base;
    HolderMoves(cat, s, x, t);
    OverlayMoves(cat, s, x, t, st);
  }

  lemma SameLayers(a: Layers, b: Layers)
    requires a.persisted.Keys == b.persisted.Keys && a.overlays.Keys == b.overlays.Keys
    requires forall l :: l in a.persisted ==> a.persisted[l] == b.persisted[l]
    requires forall st :: st in a.overlays ==> a.overlays[st] == b.overlays[st]
    ensures a == b
  {
    assert a.persisted == b.persisted && a.overlays == b.overlays;
  }

  /**
   * The hub's live values and baselines move as the two-layer store if and only if what is reverted
   * can be put back.
   */
  lemma Refines(cat: Catalog, s: State, x: Effect)
    requires Sound(cat, s) && cat.Apart() && Proper(cat, s, x)
    ensures LayersOf(cat, Machine(cat, s, x)) == LayerStep(cat, s, x) <==> PutsBack(cat, s, x)
  {
    var t := Machine(cat, s, x);
    hide Machine, Moved, Sound, Proper, LayerStep, LayersOf, PutsBack;
    MachineMoved(cat, s, x);
    if PutsBack(cat, s, x) {
      MovedRefines(cat, s, x, t);
    } else {
      LostPlace(cat, s, x, t);
    }
  }

  lemma MovedRefines(cat: Catalog, s: State, x: Effect, t: State)
    requires Sound(cat, s) && Proper(cat, s, x) && Moved(cat, s, x, t) && PutsBack(cat, s, x)
    ensures LayersOf(cat, t) == LayerStep(cat, s, x)
  {
    hide Moved, TrialsFit, Proper, LayerStep, Base, PersistedAt, PutsBack;
    StepKeys(cat, s, x, t);
    HolderMoves(cat, s, x, t);
    var a, b := LayersOf(cat, t), LayerStep(cat, s, x);
    forall l | l in a.persisted
      ensures a.persisted[l] == b.persisted[l]
    {
      SamePersisted(cat, s, x, t, l);
    }
    forall st | st in a.overlays
      ensures a.overlays[st] == b.overlays[st]
    {
      SameOverlay(cat, s, x, t, st);
    }
    SameLayers(a, b);
  }

  /** A baseline that cannot be put back is lost from the persisted layer. */
  lemma LostPlace(cat: Catalog, s: State, x: Effect, t: State)
    requires Sound(cat, s) && Proper(cat, s, x) && Moved(cat, s, x, t) && !PutsBack(cat, s, x)
    ensures LayersOf(cat, t) != LayerStep(cat, s, x)
  {
    hide MovedTo, After, LayerStep, Holds, Fits;
    var st :| st in s.trials && s.trials[st].sid == x.sid && !CanRevert(cat, s, st);
    var l :| l in s.trials[st].base && l in s.vals && s.vals[l] != s.trials[st].base[l] && !Holds(cat, l, s.trials[st].base[l]);
    RevertMoves(cat, s, x, l);
    StepPersisted(cat, s, x, l);
    assert LayersOf(cat, t).persisted[l] == t.vals[l];
  }

  /** Every event moves the layers by its effect if and only if what it reverts can be put back. */
  lemma NextRefines(cat: Catalog, s: State, ev: Event)
    requires Sound(cat, s) && cat.Apart()
    ensures LayersOf(cat, Next(cat, s, ev)) == LayerStep(cat, s, EffectOf(cat, s, ev)) <==> PutsBack(cat, s, EffectOf(cat, s, ev))
  {
    hide Next, EffectOf, Machine, LayersFrom, LayerStep, TrialsFit, PutsBack;
    NextMachine(cat, s, ev);
    Refines(cat, s, EffectOf(cat, s, ev));
  }

  // ---- the life of one trial ----------------------------------------------------------------------------

  /** The event reverts every trial of `sid`, or closes its session. */
  ghost predicate Reverts(cat: Catalog, s: State, ev: Event, sid: nat) {
    var x := EffectOf(cat, s, ev);
    By(x, sid) && EndsAll(x) && (x.Does? ==> !x.plan.commit)
  }

  ghost predicate Commits(cat: Catalog, s: State, ev: Event, sid: nat) {
    var x := EffectOf(cat, s, ev);
    By(x, sid) && x.Does? && x.plan.EndAll? && x.plan.commit
  }

  /** A plain write by `sid` that names the setting. */
  ghost predicate Overwrites(cat: Catalog, s: State, ev: Event, sid: nat, st: Setting) {
    var x := EffectOf(cat, s, ev);
    By(x, sid) && x.Does? && !x.trial && st in Touched(cat, x.e.id, x.kv)
  }

  lemma BaseIs(cat: Catalog, s: State, st: Setting)
    requires Sound(cat, s) && st in s.trials
    ensures s.trials[st].base.Keys == Base(cat, s.vals, st).Keys
  {
    forall l
      ensures l in s.trials[st].base <==> l in Base(cat, s.vals, st)
    {
      cat.Placed(l);
    }
  }

  /** A revert restores what the setting showed if and only if that can be put back. */
  lemma RevertBase(cat: Catalog, s: State, x: Effect, t: State, st: Setting)
    requires Sound(cat, s) && Moved(cat, s, x, t) && EndsAll(x) && (x.Does? ==> !x.plan.commit)
    requires st in s.trials && HeldBy(s.trials, st, x.sid)
    ensures Base(cat, t.vals, st) == s.trials[st].base <==> CanRevert(cat, s, st)
  {
    hide MovedTo, After, TrialsFit, TrialsAfter, Holds, Base;
    var b, m := s.trials[st].base, Base(cat, t.vals, st);
    BaseIs(cat, s, st);
    BaseHas(cat, s.vals, st);
    BaseHas(cat, t.vals, st);
    forall l | l in b
      ensures l in m && (m[l] == b[l] <==> s.vals[l] == b[l] || Holds(cat, l, b[l]))
    {
      RevertMoves(cat, s, x, l);
    }
    SameMap(m, b);
  }

  lemma BaseHas(cat: Catalog, vals: map<Loc, Val>, st: Setting)
    ensures forall l :: l in Base(cat, vals, st) <==> l in vals && cat.SettingOf(l) == Some(st)
    ensures forall l :: l in Base(cat, vals, st) ==> Base(cat, vals, st)[l] == vals[l]
  {
  }

  lemma SameMap(a: map<Loc, Val>, b: map<Loc, Val>)
    requires a.Keys == b.Keys
    ensures a == b <==> forall l :: l in b ==> a[l] == b[l]
  {
  }

  /** What one event can do to a setting on trial. */
  ghost predicate TrialFate(cat: Catalog, s: State, ev: Event, t: State, st: Setting)
    requires st in s.trials
  {
    var holder := s.trials[st].sid;
    && (st in t.trials ==> t.trials[st] == s.trials[st])
    && (!By(EffectOf(cat, s, ev), holder) ==> st in t.trials && Base(cat, t.vals, st) == Base(cat, s.vals, st))
    && (st !in t.trials ==> Reverts(cat, s, ev, holder) || Commits(cat, s, ev, holder) || Overwrites(cat, s, ev, holder, st))
    && (Reverts(cat, s, ev, holder) ==> st !in t.trials && (Base(cat, t.vals, st) == s.trials[st].base <==> CanRevert(cat, s, st)))
    && (Commits(cat, s, ev, holder) ==> st !in t.trials && Base(cat, t.vals, st) == Base(cat, s.vals, st))
  }

  /** What an effect does to the trial of a setting, apart from its values. */
  lemma TrialMoves(cat: Catalog, s: State, x: Effect, t: State, st: Setting)
    requires Fits(cat, s.vals) && Moved(cat, s, x, t) && Proper(cat, s, x) && st in s.trials
    ensures var mine := By(x, s.trials[st].sid);
            && (st in t.trials ==> t.trials[st] == s.trials[st])
            && (!mine ==> st in t.trials)
            && (mine && EndsAll(x) ==> st !in t.trials)
            && (st !in t.trials && !EndsAll(x) ==> x.Does? && !x.trial && st in Touched(cat, x.e.id, x.kv))
  {
    hide Base, Fits, MovedTo, After, Trialable;
  }

  lemma FateOf(cat: Catalog, s: State, ev: Event, x: Effect, t: State, st: Setting)
    requires Sound(cat, s) && Moved(cat, s, x, t) && Proper(cat, s, x) && st in s.trials && x == EffectOf(cat, s, ev)
    ensures TrialFate(cat, s, ev, t, st)
  {
    hide EffectOf, Base, Sound, Moved, Proper, CanRevert, Touched;
    var holder := s.trials[st].sid;
    SoundFits(cat, s);
    TrialMoves(cat, s, x, t, st);
    if By(x, holder) && EndsAll(x) && (x.Does? ==> !x.plan.commit) {
      RevertBase(cat, s, x, t, st);
    } else if By(x, holder) && EndsAll(x) {
      CommitBase(cat, s, x, t, st);
    } else if !By(x, holder) {
      ForeignBase(cat, s, x, t, st);
    }
  }

  lemma SoundFits(cat: Catalog, s: State)
    requires Sound(cat, s)
    ensures Fits(cat, s.vals)
  {
  }

  lemma CommitBase(cat: Catalog, s: State, x: Effect, t: State, st: Setting)
    requires Sound(cat, s) && Moved(cat, s, x, t) && x.Does? && x.plan.EndAll? && x.plan.commit
    ensures Base(cat, t.vals, st) == Base(cat, s.vals, st)
  {
    hide TrialsAfter, MovedTo, TrialsFit, StoredAt;
    forall l | l in s.vals && cat.SettingOf(l) == Some(st)
      ensures t.vals[l] == s.vals[l]
    {
      EndMoves(cat, s, x, l);
    }
  }

  lemma ForeignBase(cat: Catalog, s: State, x: Effect, t: State, st: Setting)
    requires Sound(cat, s) && Moved(cat, s, x, t) && Proper(cat, s, x) && st in s.trials && !By(x, s.trials[st].sid)
    ensures Base(cat, t.vals, st) == Base(cat, s.vals, st)
  {
    hide TrialsAfter, MovedTo, TrialsFit;
    forall l | l in s.vals && cat.SettingOf(l) == Some(st)
      ensures t.vals[l] == s.vals[l]
    {
      OthersKeep(cat, s, x, l);
    }
  }

  lemma NextFate(cat: Catalog, s: State, ev: Event, st: Setting)
    requires Sound(cat, s) && cat.Apart() && st in s.trials
    ensures TrialFate(cat, s, ev, Next(cat, s, ev), st)
  {
    hide Next, EffectOf, Machine, TrialsFit, Moved, TrialFate, Admitted;
    var x := EffectOf(cat, s, ev);
    NextMachine(cat, s, ev);
    MachineMoved(cat, s, x);
    SameMoved(cat, s, x, Machine(cat, s, x), Next(cat, s, ev));
    FateOf(cat, s, ev, x, Next(cat, s, ev), st);
  }

  lemma SameMoved(cat: Catalog, s: State, x: Effect, a: State, b: State)
    requires Fits(cat, s.vals) && Moved(cat, s, x, a) && SameMachine(a, b)
    ensures Moved(cat, s, x, b)
  {
    hide TrialsAfter, MovedTo, After;
  }

  // ---- runs ----------------------------------------------------------------------------------------------

  /** A run seen from one trial: `st` is off trial at `i`, and on trial from `i + 1` to `j`. */
  ghost predicate OnTrialThrough(states: seq<State>, st: Setting, i: nat, j: nat)
    requires i < j < |states|
  {
    st !in states[i].trials && forall k :: i < k <= j ==> st in states[k].trials
  }

  lemma StepFate(cat: Catalog, states: seq<State>, evs: seq<Event>, k: nat, st: Setting)
    requires Trace(cat, states, evs) && Sound(cat, states[0]) && cat.Apart() && k < |evs| && |states| == |evs| + 1
    requires st in states[k].trials
    ensures TrialFate(cat, states[k], evs[k], states[k + 1], st)
  {
    hide Next, Sound, TrialFate;
    TraceSound(cat, states, evs, k);
    NextFate(cat, states[k], evs[k], st);
  }

  /** A trial opens with the values its setting shows. */
  lemma Opens(cat: Catalog, s: State, ev: Event, st: Setting)
    requires Sound(cat, s) && cat.Apart() && st !in s.trials && st in Next(cat, s, ev).trials
    ensures Next(cat, s, ev).trials[st].base == Base(cat, s.vals, st)
    ensures By(EffectOf(cat, s, ev), Next(cat, s, ev).trials[st].sid)
  {
    hide Next, EffectOf, Machine, TrialsFit, Base;
    NextMachine(cat, s, ev);
    MachineTrials(cat, s, EffectOf(cat, s, ev));
  }

  /** Throughout a trial its baseline is what the setting showed when it opened. */
  lemma {:induction false} BaselineKept(cat: Catalog, states: seq<State>, evs: seq<Event>, st: Setting, i: nat, j: nat)
    requires Trace(cat, states, evs) && Sound(cat, states[0]) && cat.Apart() && i < j < |states| == |evs| + 1
    requires OnTrialThrough(states, st, i, j)
    ensures states[j].trials[st].base == Base(cat, states[i].vals, st)
    ensures states[j].trials[st].sid == states[i + 1].trials[st].sid
  {
    hide Next, Sound, Base, Reverts, Commits, Overwrites, EffectOf;
    if j == i + 1 {
      TraceSound(cat, states, evs, i);
      Opens(cat, states[i], evs[i], st);
    } else {
      BaselineKept(cat, states, evs, st, i, j - 1);
      StepFate(cat, states, evs, j - 1, st);
    }
  }

  /**
   * A revert, or the close of its session, restores what the setting showed when the trial opened,
   * if and only if every place of it shows that already or can be put back to it.
   */
  lemma RevertRestores(cat: Catalog, states: seq<State>, evs: seq<Event>, st: Setting, i: nat, j: nat)
    requires Trace(cat, states, evs) && Sound(cat, states[0]) && cat.Apart() && i < j < |evs| && |states| == |evs| + 1
    requires OnTrialThrough(states, st, i, j) && Reverts(cat, states[j], evs[j], states[j].trials[st].sid)
    ensures st !in states[j + 1].trials
    ensures Base(cat, states[j + 1].vals, st) == Base(cat, states[i].vals, st)
       <==> forall l :: l in states[i].vals && l in states[j].vals && cat.SettingOf(l) == Some(st) ==>
              states[j].vals[l] == states[i].vals[l] || Holds(cat, l, states[i].vals[l])
  {
    hide Trace, Sound, Reverts, Commits, Overwrites, Holds;
    BaselineKept(cat, states, evs, st, i, j);
    StepFate(cat, states, evs, j, st);
  }

  // ---- what the hub itself has written can always be put back --------------------------------------------

  /** Every place of a setting shows, and every baseline holds, what the writer can put back. */
  ghost predicate Writable(cat: Catalog, s: State) {
    && (forall l :: l in s.vals && cat.SettingOf(l).Some? ==> Holds(cat, l, s.vals[l]))
    && (forall st, l :: st in s.trials && l in s.trials[st].base ==> Holds(cat, l, s.trials[st].base[l]))
  }

  lemma AfterHolds(cat: Catalog, vals: map<Loc, Val>, l: Loc, w: Option<Val>)
    requires Fits(cat, vals) && l in vals && Holds(cat, l, vals[l])
    ensures Holds(cat, l, After(cat, vals, l, w))
  {
    if w.Some? {
      cat.Placed(l);
      PackedWrite.StoredRestorable(cat.single, cat.At(l).f, w.value);
    }
  }

  lemma TrialsHold(cat: Catalog, s: State, x: Effect)
    requires Sound(cat, s) && Proper(cat, s, x) && Writable(cat, s)
    ensures forall st, l :: st in TrialsAfter(cat, s, x) && l in TrialsAfter(cat, s, x)[st].base ==>
              Holds(cat, l, TrialsAfter(cat, s, x)[st].base[l])
  {
    hide Holds, Trialable, TrialsFit;
  }

  /** Every event keeps it so. */
  lemma NextWritable(cat: Catalog, s: State, ev: Event)
    requires Sound(cat, s) && cat.Apart() && Writable(cat, s)
    ensures Writable(cat, Next(cat, s, ev))
  {
    hide Next, EffectOf, Machine, TrialsFit, Moved, Admitted, Holds, After, MovedTo, TrialsAfter;
    var x, t := EffectOf(cat, s, ev), Next(cat, s, ev);
    NextMachine(cat, s, ev);
    MachineMoved(cat, s, x);
    SameMoved(cat, s, x, Machine(cat, s, x), t);
    TrialsHold(cat, s, x);
    MovedIs(cat, s, x, t);
    forall l | l in t.vals && cat.SettingOf(l).Some?
      ensures Holds(cat, l, t.vals[l])
    {
      AfterHolds(cat, s.vals, l, MovedTo(cat, s, x, l));
    }
  }

  lemma MovedIs(cat: Catalog, s: State, x: Effect, t: State)
    requires Fits(cat, s.vals) && Moved(cat, s, x, t)
    ensures t.vals.Keys == s.vals.Keys && t.trials == TrialsAfter(cat, s, x)
    ensures forall l :: l in s.vals && cat.SettingOf(l).Some? ==> t.vals[l] == After(cat, s.vals, l, MovedTo(cat, s, x, l))
  {
    hide TrialsAfter, MovedTo, After;
  }

  lemma {:induction false} TraceWritable(cat: Catalog, states: seq<State>, evs: seq<Event>, k: nat)
    requires Trace(cat, states, evs) && Sound(cat, states[0]) && cat.Apart() && Writable(cat, states[0]) && k < |states|
    ensures Writable(cat, states[k])
  {
    hide Next, Sound, Writable;
    if k > 0 {
      TraceWritable(cat, states, evs, k - 1);
      TraceSound(cat, states, evs, k - 1);
      NextWritable(cat, states[k - 1], evs[k - 1]);
    }
  }

  /** In a run from such a state the layers move as they should throughout: every revert restores. */
  lemma TraceRefines(cat: Catalog, states: seq<State>, evs: seq<Event>, k: nat)
    requires Trace(cat, states, evs) && Sound(cat, states[0]) && cat.Apart() && Writable(cat, states[0])
    requires k < |evs| && |states| == |evs| + 1
    ensures LayersOf(cat, states[k + 1]) == LayerStep(cat, states[k], EffectOf(cat, states[k], evs[k]))
  {
    hide Next, Sound, Holds, EffectOf, LayerStep, LayersOf;
    TraceWritable(cat, states, evs, k);
    TraceSound(cat, states, evs, k);
    NextRefines(cat, states[k], evs[k]);
  }

  /** Nobody but its holder changes a setting on trial, or ends the trial. */
  lemma OnlyHolderWrites(cat: Catalog, states: seq<State>, evs: seq<Event>, st: Setting, i: nat, j: nat, k: nat)
    requires Trace(cat, states, evs) && Sound(cat, states[0]) && cat.Apart() && i < j < |states| == |evs| + 1
    requires OnTrialThrough(states, st, i, j) && i < k < |evs| && k <= j
    requires !By(EffectOf(cat, states[k], evs[k]), states[i + 1].trials[st].sid)
    ensures st in states[k + 1].trials && Base(cat, states[k + 1].vals, st) == Base(cat, states[k].vals, st)
  {
    hide Trace, Sound, Base, Reverts, Commits, Overwrites, EffectOf;
    BaselineKept(cat, states, evs, st, i, k);
    StepFate(cat, states, evs, k, st);
  }

  // ---- a string that fills its width --------------------------------------------------------------------

  function Label(single: PackedWrite.ToSingle): Catalog {
    Catalog([StateEntry(100, WATCH, [LayoutField(Field("label", STR16, 1.0, None), NoRole, Some(1), false, None, None, None)],
                        Some(200), None),
             IntentEntry(200, CONTROL, [SchemaField(1, TStr, Plain, None, None, None, false, None, None)], None),
             IntentEntry(CH_SETTINGS_TRIAL, CONTROL, [], None)], false, single)
  }

  lemma LabelPlaces(single: PackedWrite.ToSingle)
    ensures var cat := Label(single);
            && FindIn(cat.entries, 100) == Some(cat.entries[0]) && cat.WellFormed()
            && cat.Locs() == {Loc(100, 0)}
            && forall m :: cat.SettingOf(m) == Some(Setting(200, 1)) <==> m == Loc(100, 0)
  {
    var cat := Label(single);
    var e := cat.entries[0];
    assert FindIn(cat.entries, 100) == Some(e);
    assert e in cat.entries && 0 <= 0 < |e.layout| && Loc(e.id, 0) == Loc(100, 0);
    forall m
      ensures cat.SettingOf(m) == Some(Setting(200, 1)) <==> m == Loc(100, 0)
    {
      FoundIn(cat.entries, m.ch);
    }
  }

  /** The label is on trial by session 7, and its session closes: of a baseline of sixteen bytes the last is lost. */
  lemma LabelCloses(single: PackedWrite.ToSingle, s: State, full: seq<byte>)
    requires single(0.0) == NullSingle() && |full| == 16 && full[14] != 0
    requires Fits(Label(single), s.vals) && Loc(100, 0) in s.vals && s.vals[Loc(100, 0)] != Text(full) && 7 in s.conns
    requires s.trials == map[Setting(200, 1) := Trial(7, map[Loc(100, 0) := Text(full)])]
    ensures Loc(100, 0) in Next(Label(single), s, Close(7)).vals
    ensures Next(Label(single), s, Close(7)).vals[Loc(100, 0)] == Text(full[..15])
  {
    hide Next, Machine, After;
    var cat, l := Label(single), Loc(100, 0);
    LabelPlaces(single);
    LabelApart(single);
    assert EffectOf(cat, s, Close(7)) == Closes(7);
    NextMachine(cat, s, Close(7));
    MachinePlace(cat, s, Closes(7), l);
    assert MovedTo(cat, s, Closes(7), l) == Some(Text(full));
    LabelStored(single, s.vals, full);
  }

  lemma LabelApart(single: PackedWrite.ToSingle)
    requires single(0.0) == NullSingle()
    ensures Label(single).Apart()
  {
  }

  lemma LabelStored(single: PackedWrite.ToSingle, vals: map<Loc, Val>, full: seq<byte>)
    requires Fits(Label(single), vals) && Loc(100, 0) in vals && |full| == 16 && full[14] != 0
    ensures After(Label(single), vals, Loc(100, 0), Some(Text(full))) == Text(full[..15])
  {
    LabelPlaces(single);
    PackedWrite.TrimmedUnique(full[..15], full[..15]);
  }
}
