/**
 * What subscribers have been told (clients/js/localhub.js): the last STATE pushed to a ready
 * connection on a subscribed channel is what the hub holds.
 */
module HubViews {
  import opened Bytes
  import opened Packed
  import opened HubCatalog
  import opened Hub
  import opened HubPlaces
  import opened HubTrials
  import opened HubIntents
  import PackedWrite

  /** A connection has seen the current value of every place it subscribes to, outside `stale`. */
  ghost predicate Sees(c: Conn, vals: map<Loc, Val>, stale: set<nat>) {
    c.ready ==> forall l :: l in vals && l.ch in c.subs && l.ch !in stale ==> l in c.view && c.view[l] == vals[l]
  }

  ghost predicate SeesLatch(c: Conn, latch: Latch) {
    c.ready && CH_SAFETY in c.subs ==> c.latchView == Some(latch)
  }

  ghost predicate CoherentBut(s: State, stale: set<nat>) {
    forall sid :: sid in s.conns ==> Sees(s.conns[sid], s.vals, stale) && SeesLatch(s.conns[sid], s.latch)
  }

  ghost predicate Coherent(s: State) {
    CoherentBut(s, {})
  }

  // ---- pushes and writes -------------------------------------------------------------------------

  /** Broadcasting the stale channels brings every subscriber up to date. */
  lemma ShowHeals(s: State, stale: set<nat>)
    requires CoherentBut(s, stale)
    ensures Coherent(Show(s, stale))
  {
    forall sid | sid in s.conns
      ensures Sees(Shown(s.conns[sid], s.vals, stale), s.vals, {})
    {
      assert Sees(s.conns[sid], s.vals, stale);
    }
  }

  lemma LatchShown(s: State, latch: Latch, stale: set<nat>)
    requires CoherentBut(s, stale)
    ensures CoherentBut(SetLatch(s, latch), stale)
  {
    forall sid | sid in s.conns
      ensures Sees(ShownLatch(s.conns[sid], latch), s.vals, stale)
    {
      assert Sees(s.conns[sid], s.vals, stale);
    }
  }

  /** A state with the same connections and latch, whose values differ on the channels `more` alone. */
  ghost predicate Differs(s: State, t: State, more: set<nat>) {
    && t.conns == s.conns && t.latch == s.latch && t.vals.Keys == s.vals.Keys
    && forall l :: l in s.vals && l.ch !in more ==> t.vals[l] == s.vals[l]
  }

  lemma WriteStales(s: State, t: State, stale: set<nat>, more: set<nat>)
    requires CoherentBut(s, stale) && Differs(s, t, more)
    ensures CoherentBut(t, stale + more)
  {
    forall sid | sid in t.conns
      ensures Sees(t.conns[sid], t.vals, stale + more)
    {
      assert Sees(s.conns[sid], s.vals, stale);
    }
  }

  lemma MaskDiffers(cat: Catalog, s: State)
    requires Fits(cat, s.vals)
    ensures Differs(s, Masked(cat, s), MaskChannels(cat, s))
  {
    hide MaskValue, StoredAt;
  }

  lemma EndDiffers(cat: Catalog, s: State, sid: nat, commit: bool)
    requires Fits(cat, s.vals)
    ensures Differs(s, EndTrials(cat, s, sid, commit).s, EndTrials(cat, s, sid, commit).changed)
  {
    hide MaskValue, RevertValue, StoredAt, Masked, MaskChannels;
    var u := Unmasked(cat, s, sid, commit);
    assert Differs(s, u, if commit then {} else RevertChannels(cat, s, sid));
    MaskDiffers(cat, u);
  }

  lemma MutatedDiffers(cat: Catalog, s: State, items: map<nat, Item>, d: StoreDesc)
    requires Fits(cat, s.vals)
    ensures Differs(s, Mutated(cat, s, items, d), RosterChannels(cat, d.storeId))
  {
  }

  lemma WriteDiffers(cat: Catalog, s: State, ch: nat, kv: map<nat, IVal>)
    requires Fits(cat, s.vals)
    ensures Differs(s, s.(vals := Written(cat, s.vals, ch, kv)), WriteChannels(cat, s, ch, kv))
  {
    hide WriteAt, StoredAt;
  }

  lemma EstopCoherent(cat: Catalog, s: State)
    requires Fits(cat, s.vals) && Coherent(s)
    ensures Coherent(LatchEstop(cat, s))
  {
    hide Running, StoredAt, CoherentBut, Fits;
    if !s.latch.estop {
      var t := s.(vals := Stopped(cat, s.vals));
      StopDiffers(cat, s);
      WriteStales(s, t, {}, RunningChannels(cat, s.vals));
      assert {} + RunningChannels(cat, s.vals) == RunningChannels(cat, s.vals);
      ShowHeals(t, RunningChannels(cat, s.vals));
      LatchShown(Show(t, RunningChannels(cat, s.vals)), Estopped(cat, s.latch), {});
    }
  }

  lemma StopDiffers(cat: Catalog, s: State)
    requires Fits(cat, s.vals)
    ensures Differs(s, s.(vals := Stopped(cat, s.vals)), RunningChannels(cat, s.vals))
  {
    hide StoredAt;
  }

  // ---- intents -----------------------------------------------------------------------------------------

  lemma EnactCoherent(cat: Catalog, s: State, sid: nat, ch: nat, kv: map<nat, IVal>, plan: Plan)
    requires Fits(cat, s.vals) && Coherent(s) && !plan.Refuse?
    ensures var o := Enact(cat, s, sid, ch, kv, plan); CoherentBut(o.s, o.changed)
  {
    hide LatchEstop, EndTrials, Mutated, Written, Applied, CoherentBut, WriteChannels, RosterChannels, Differs, SetLatch;
    match plan
    case Keep =>
    case EstopNow => EstopCoherent(cat, s);
    case To(latch) => LatchShown(s, latch, {});
    case Leaves(items, d) =>
      MutatedDiffers(cat, s, items, d);
      WriteStales(s, Mutated(cat, s, items, d), {}, RosterChannels(cat, d.storeId));
      assert {} + RosterChannels(cat, d.storeId) == RosterChannels(cat, d.storeId);
    case EndAll(commit) =>
      var r := EndTrials(cat, s, sid, commit);
      EndDiffers(cat, s, sid, commit);
      WriteStales(s, r.s, {}, r.changed);
      assert {} + r.changed == r.changed;
    case Writes(homed) =>
      var w := WriteChannels(cat, s, ch, kv);
      var t := s.(vals := Written(cat, s.vals, ch, kv));
      WriteDiffers(cat, s, ch, kv);
      WriteStales(s, t, {}, w);
      assert {} + w == w;
      LatchShown(t, s.latch.(homeRequired := false), w);
  }

  lemma PerformCoherent(cat: Catalog, s: State, sid: nat, ch: nat, kv: map<nat, IVal>, trial: bool, plan: Plan)
    requires Fits(cat, s.vals) && Coherent(s) && !plan.Refuse?
    ensures var o := Perform(cat, s, sid, ch, kv, trial, plan); CoherentBut(o.s, o.changed)
  {
    hide Enact, Settled, Masked, MaskChannels, Differs;
    EnactCoherent(cat, s, sid, ch, kv, plan);
    var o := Enact(cat, s, sid, ch, kv, plan);
    var t := o.s.(trials := Settled(cat, s.vals, o.s.trials, sid, ch, kv, trial));
    assert CoherentBut(t, o.changed);
    MaskDiffers(cat, t);
    WriteStales(t, Masked(cat, t), o.changed, MaskChannels(cat, t));
  }

  /** An answered intent leaves every subscriber up to date; one that throws is never broadcast. */
  lemma AnswerCoherent(b: State, sid: nat, e: Entry, id: Option<nat>, o: Outcome)
    requires e.IntentEntry? && CoherentBut(b, o.changed)
    ensures Answered(b, sid, e, id, o).reply.EchoReply? ==> Coherent(Answered(b, sid, e, id, o).s)
  {
    hide Show, EchoApplied, Pushed, EchoEncodable;
    if !EchoThrows(e, id, o.kv) {
      var echo := Echo(b.cfgGen, if id.Some? then id.value else 0, EchoApplied(e, o.kv));
      EchoCoherent(b, sid, echo, o.changed);
      ShowHeals(WithEcho(b, sid, echo), o.changed);
    }
  }

  lemma EchoCoherent(b: State, sid: nat, echo: Echo, stale: set<nat>)
    requires CoherentBut(b, stale)
    ensures CoherentBut(WithEcho(b, sid, echo), stale)
  {
    var t := WithEcho(b, sid, echo);
    forall other | other in t.conns
      ensures Sees(t.conns[other], t.vals, stale)
    {
      assert Sees(b.conns[other], b.vals, stale);
    }
  }

  lemma FollowedCoherent(cat: Catalog, s: State, sid: nat, e: Entry, kv: map<nat, IVal>, id: Option<nat>, trial: bool, plan: Plan)
    requires Fits(cat, s.vals) && e.IntentEntry? && Coherent(s)
    ensures var r := Followed(cat, s, sid, e, kv, id, trial, plan); !r.reply.ThrownReply? ==> Coherent(r.s)
  {
    hide Perform, Answered, CoherentBut;
    if !plan.Refuse? {
      var o := Perform(cat, s, sid, e.id, kv, trial, plan);
      PerformCoherent(cat, s, sid, e.id, kv, trial, plan);
      BumpCoherent(o.s, o.config, o.changed);
      AnswerCoherent(Bumped(o.s, o.config), sid, e, id, o);
      AnswerNotNack(Bumped(o.s, o.config), sid, e, id, o);
    }
  }

  lemma AnswerNotNack(b: State, sid: nat, e: Entry, id: Option<nat>, o: Outcome)
    requires e.IntentEntry?
    ensures !Answered(b, sid, e, id, o).reply.NackReply?
  {
  }

  lemma BumpCoherent(s: State, config: bool, stale: set<nat>)
    requires CoherentBut(s, stale)
    ensures CoherentBut(Bumped(s, config), stale)
  {
  }

  lemma IntentCoherent(cat: Catalog, s: State, sid: nat, m: Intent)
    requires Fits(cat, s.vals) && sid in s.conns && Coherent(s)
    ensures !OnIntent(cat, s, sid, m).reply.ThrownReply? ==> Coherent(OnIntent(cat, s, sid, m).s)
  {
    hide Followed, PlanOf, GateOf, Coherent;
    var g := GateOf(cat, s.conns[sid], m);
    if g.Pass? {
      FollowedCoherent(cat, s, sid, g.e, g.kv, m.id, OnTrial(cat, m), PlanOf(cat, s, sid, g.e, g.kv, OnTrial(cat, m)));
    }
  }

  // ---- the session plane ------------------------------------------------------------------------------

  /** Pushing every channel of `chs` to one connection. */
  lemma PushedSees(c: Conn, vals: map<Loc, Val>, latch: Latch, chs: set<nat>)
    requires Sees(c, vals, chs) && (CH_SAFETY in chs || SeesLatch(c, latch))
    ensures Sees(Pushed1(c, vals, latch, chs), vals, {}) && SeesLatch(Pushed1(c, vals, latch, chs), latch)
  {
  }

  lemma CloseCoherent(cat: Catalog, s: State, sid: nat)
    requires Fits(cat, s.vals) && Coherent(s)
    ensures Coherent(OnClose(cat, s, sid))
  {
    hide EndTrials, Fits, Show, Differs;
    var t := s.(conns := s.conns - {sid});
    var r := EndTrials(cat, t, sid, false);
    assert Coherent(t);
    EndDiffers(cat, t, sid, false);
    WriteStales(t, r.s, {}, r.changed);
    assert {} + r.changed == r.changed;
    BumpCoherent(r.s, r.moved, r.changed);
    ShowHeals(Bumped(r.s, r.moved), r.changed);
  }

  lemma PlaneCoherent(cat: Catalog, s: State, ev: Event)
    requires Fits(cat, s.vals) && Coherent(s)
    requires !ev.IntentFrame? && !ev.EstopFrame? && !ev.Close? && ev.sid in s.conns
    ensures Coherent(Next(cat, s, ev))
  {
    hide OnIntent, LatchEstop, OnClose, Fits, Granted, Pushed1;
    var c := s.conns[ev.sid];
    assert Sees(c, s.vals, {}) && SeesLatch(c, s.latch);
    match ev
    case Hello(sid, etagMatches, wishes) =>
      var granted := Members(Granted(cat, c.roles, wishes));
      PushedSees(c.(ready := etagMatches, subs := granted, ring := [], view := map[], latchView := None), s.vals, s.latch, granted);
    case CatalogReady(sid) => PushedSees(c.(ready := true), s.vals, s.latch, c.subs);
    case Subscribe(sid, wishes) =>
      var granted := Members(Granted(cat, c.roles, wishes));
      PushedSees(c.(subs := c.subs + granted), s.vals, s.latch, granted);
    case _ =>
  }

  // ---- intents that throw after acting --------------------------------------------------------------------

  /** What a plan stores at a place, before the trials are settled and their marks redone. */
  function PutHere(cat: Catalog, s: State, sid: nat, ch: nat, kv: map<nat, IVal>, plan: Plan, l: Loc): Option<Val> {
    match plan
    case EstopNow => if !s.latch.estop && Running(cat, s.vals, l) then Some(Num(0.0)) else None
    case Writes(_) => StoreAt(cat, ch, kv, l)
    case EndAll(commit) => if commit then None else RevertValue(cat, s, sid, l)
    case Leaves(items, d) =>
      var r := RosterIn(cat.entries, d.storeId);
      if r.None? then None
      else
        RosterIsState(cat.entries, d.storeId);
        RosterValue(r.value, l, NextGen(s.gens, d.storeId), |KeysOf(items, d.storeId)|, d.capacity)
    case _ => None
  }

  /** The trials a plan leaves. */
  function TrialsLeft(cat: Catalog, s: State, sid: nat, ch: nat, kv: map<nat, IVal>, trial: bool, plan: Plan): map<Setting, Trial> {
    if plan.EndAll? then Dropped(s.trials, sid) else Settled(cat, s.vals, s.trials, sid, ch, kv, trial)
  }

  /** A mark redone over these trials; any other place as it is. */
  function Remarked(cat: Catalog, trials: map<Setting, Trial>, l: Loc, v: Val): Val
    requires cat.WellFormed() && cat.HasLoc(l)
  {
    if cat.At(l).role == TrialMark && cat.StateAt(l).setting.Some? then
      var mark := Num(MaskByte(cat.StateAt(l), trials, 8 * MarksBefore(cat.StateAt(l).layout, l.i) % 32, 8) as real);
      cat.Placed(l);
      if v == mark then v else StoredAt(cat, l, mark)
    else v
  }

  /** What a place is to read once an intent is carried out, from the state before it. */
  function ToRead(cat: Catalog, s: State, sid: nat, ch: nat, kv: map<nat, IVal>, trial: bool, plan: Plan, l: Loc): Val
    requires Fits(cat, s.vals) && l in s.vals
  {
    cat.Placed(l);
    var v := After(cat, s.vals, l, PutHere(cat, s, sid, ch, kv, plan, l));
    if plan.EndAll? || cat.TrialsOn() then Remarked(cat, TrialsLeft(cat, s, sid, ch, kv, trial, plan), l, v) else v
  }

  /** What was broadcast of a place while the plan was carried out: a stop announces what it stops. */
  function Announced(cat: Catalog, s: State, plan: Plan, l: Loc): Val
    requires Fits(cat, s.vals) && l in s.vals
  {
    if plan.EstopNow? && !s.latch.estop && Running(cat, s.vals, l) then After(cat, s.vals, l, Some(Num(0.0))) else s.vals[l]
  }

  lemma MaskedReads(cat: Catalog, t: State, l: Loc)
    requires Fits(cat, t.vals) && l in t.vals && cat.HasLoc(l)
    ensures l in Masked(cat, t).vals && Masked(cat, t).vals[l] == Remarked(cat, t.trials, l, t.vals[l])
  {
    hide MaskByte, StoredAt;
  }

  lemma EnactReads(cat: Catalog, s: State, sid: nat, ch: nat, kv: map<nat, IVal>, plan: Plan, l: Loc)
    requires Fits(cat, s.vals) && l in s.vals && !plan.Refuse? && !plan.EndAll?
    ensures var t := Enact(cat, s, sid, ch, kv, plan).s;
            l in t.vals && t.vals[l] == After(cat, s.vals, l, PutHere(cat, s, sid, ch, kv, plan, l))
  {
    hide StoreAt, StoredAt, Applied, WriteChannels, RosterChannels, Show, Running;
    match plan
    case Leaves(items, d) => MutatedReads(cat, s, items, d, l);
    case EstopNow => StopReads(cat, s, l);
    case _ =>
  }

  lemma MutatedReads(cat: Catalog, s: State, items: map<nat, Item>, d: StoreDesc, l: Loc)
    requires Fits(cat, s.vals) && l in s.vals
    ensures var t := Mutated(cat, s, items, d);
            l in t.vals && t.vals[l] == After(cat, s.vals, l, PutHere(cat, s, 0, 0, map[], Leaves(items, d), l))
  {
    hide StoredAt, RosterValue;
    RosterIsState(cat.entries, d.storeId);
  }

  lemma StopReads(cat: Catalog, s: State, l: Loc)
    requires Fits(cat, s.vals) && l in s.vals
    ensures var t := LatchEstop(cat, s);
            l in t.vals && t.vals[l] == if !s.latch.estop && Running(cat, s.vals, l) then After(cat, s.vals, l, Some(Num(0.0))) else s.vals[l]
  {
    hide StoredAt, Running;
  }

  lemma EndReads(cat: Catalog, s: State, sid: nat, commit: bool, l: Loc)
    requires Fits(cat, s.vals) && l in s.vals && cat.HasLoc(l)
    ensures var t := EndTrials(cat, s, sid, commit).s;
            l in t.vals && t.vals[l] == Remarked(cat, Dropped(s.trials, sid), l,
                                                 After(cat, s.vals, l, if commit then None else RevertValue(cat, s, sid, l)))
  {
    hide Remarked, StoredAt, Masked;
    MaskedReads(cat, Unmasked(cat, s, sid, commit), l);
  }

  /** A carried-out intent leaves every place reading just that. */
  lemma PerformReads(cat: Catalog, s: State, sid: nat, ch: nat, kv: map<nat, IVal>, trial: bool, plan: Plan, l: Loc)
    requires Fits(cat, s.vals) && l in s.vals && !plan.Refuse?
    ensures var t := Perform(cat, s, sid, ch, kv, trial, plan).s;
            l in t.vals && t.vals[l] == ToRead(cat, s, sid, ch, kv, trial, plan, l)
  {
    hide Remarked, StoredAt, Masked, EndTrials, Settled, MaskChannels, Fits;
    SoPlaced(cat, s.vals, l);
    if plan.EndAll? {
      EndReads(cat, s, sid, plan.commit, l);
    } else {
      hide Enact;
      EnactReads(cat, s, sid, ch, kv, plan, l);
      EnactTrials(cat, s, sid, ch, kv, plan);
      var o := Enact(cat, s, sid, ch, kv, plan);
      MaskedReads(cat, o.s.(trials := Settled(cat, s.vals, o.s.trials, sid, ch, kv, trial)), l);
    }
  }

  lemma SoPlaced(cat: Catalog, vals: map<Loc, Val>, l: Loc)
    requires Fits(cat, vals) && l in vals
    ensures cat.WellFormed() && cat.HasLoc(l)
  {
    cat.Placed(l);
  }

  /** The state with its new latch, all broadcast, before anything else is written. */
  function Told(cat: Catalog, s: State, plan: Plan): State
    requires Fits(cat, s.vals)
  {
    match plan
    case EstopNow => LatchEstop(cat, s)
    case To(latch) => SetLatch(s, latch)
    case Writes(homed) => if homed then SetLatch(s, s.latch.(homeRequired := false)) else s
    case _ => s
  }

  lemma ToldCoherent(cat: Catalog, s: State, plan: Plan)
    requires Fits(cat, s.vals) && Coherent(s)
    ensures Coherent(Told(cat, s, plan)) && Told(cat, s, plan).vals.Keys == s.vals.Keys
    ensures forall l :: l in s.vals ==> Told(cat, s, plan).vals[l] == Announced(cat, s, plan, l)
  {
    hide LatchEstop, CoherentBut, SetLatch, Fits, Running;
    match plan
    case EstopNow =>
      EstopCoherent(cat, s);
      EstopPlaces(cat, s);
      forall l | l in s.vals
        ensures LatchEstop(cat, s).vals[l] == Announced(cat, s, plan, l)
      {
        StopReads(cat, s, l);
      }
    case To(latch) => LatchShown(s, latch, {}); LatchOnly(s, latch);
    case Writes(_) => LatchShown(s, s.latch.(homeRequired := false), {}); LatchOnly(s, s.latch.(homeRequired := false));
    case _ =>
  }

  lemma EstopPlaces(cat: Catalog, s: State)
    requires Fits(cat, s.vals)
    ensures LatchEstop(cat, s).vals.Keys == s.vals.Keys
  {
  }

  lemma LatchOnly(s: State, latch: Latch)
    ensures SetLatch(s, latch).vals == s.vals
  {
  }

  /** Nothing was told but what `b` had told. */
  ghost predicate ToldAs(b: State, t: State) {
    t.conns == b.conns && t.latch == b.latch && t.vals.Keys == b.vals.Keys
  }

  lemma EnactTold(cat: Catalog, s: State, sid: nat, ch: nat, kv: map<nat, IVal>, plan: Plan)
    requires Fits(cat, s.vals) && !plan.Refuse?
    ensures ToldAs(Told(cat, s, plan), Enact(cat, s, sid, ch, kv, plan).s)
  {
    hide Fits, LatchEstop, EndTrials, Mutated, Written, Applied, WriteChannels, RosterChannels, LatchedAll;
    match plan
    case EndAll(commit) => EndTold(cat, s, sid, commit);
    case Leaves(items, d) => MutatedTold(cat, s, items, d);
    case _ =>
  }

  /** Carrying out a plan tells peers no more than that. */
  lemma PerformTold(cat: Catalog, s: State, sid: nat, ch: nat, kv: map<nat, IVal>, trial: bool, plan: Plan)
    requires Fits(cat, s.vals) && !plan.Refuse?
    ensures ToldAs(Told(cat, s, plan), Perform(cat, s, sid, ch, kv, trial, plan).s)
  {
    hide Fits, Enact, MaskChannels, Settled, Told;
    EnactTold(cat, s, sid, ch, kv, plan);
  }

  lemma EndTold(cat: Catalog, s: State, sid: nat, commit: bool)
    requires Fits(cat, s.vals)
    ensures ToldAs(s, EndTrials(cat, s, sid, commit).s)
  {
    hide Fits;
  }

  lemma MutatedTold(cat: Catalog, s: State, items: map<nat, Item>, d: StoreDesc)
    requires Fits(cat, s.vals)
    ensures ToldAs(s, Mutated(cat, s, items, d))
  {
  }

  /** A ready session subscribes to the place. */
  ghost predicate Watched(conns: map<nat, Conn>, l: Loc) {
    exists who :: who in conns && conns[who].ready && l.ch in conns[who].subs
  }

  /** Values changed behind the backs of an up-to-date audience. */
  lemma MissesWhen(b: State, t: State)
    requires Coherent(b) && ToldAs(b, t)
    ensures Coherent(t) <==> forall l :: l in b.vals && Watched(b.conns, l) ==> t.vals[l] == b.vals[l]
  {
    if forall l :: l in b.vals && Watched(b.conns, l) ==> t.vals[l] == b.vals[l] {
      forall sid | sid in t.conns
        ensures Sees(t.conns[sid], t.vals, {}) && SeesLatch(t.conns[sid], t.latch)
      {
        assert Sees(b.conns[sid], b.vals, {});
      }
    } else {
      var l :| l in b.vals && Watched(b.conns, l) && t.vals[l] != b.vals[l];
      var who :| who in b.conns && b.conns[who].ready && l.ch in b.conns[who].subs;
      assert Sees(b.conns[who], b.vals, {});
      assert !Sees(t.conns[who], t.vals, {});
    }
  }

  lemma SameAudience(a: map<nat, Conn>, b: map<nat, Conn>, l: Loc)
    requires SameConns(a, b)
    ensures Watched(a, l) <==> Watched(b, l)
  {
  }

  lemma ToldConns(cat: Catalog, s: State, plan: Plan)
    requires Fits(cat, s.vals)
    ensures SameConns(s.conns, Told(cat, s, plan).conns)
  {
    hide Fits, LatchEstop;
    EstopConns(cat, s);
  }

  /** A place somebody watches is to read other than was announced. */
  ghost predicate Behind(cat: Catalog, s: State, sid: nat, ch: nat, kv: map<nat, IVal>, trial: bool, plan: Plan)
    requires Fits(cat, s.vals)
  {
    exists l :: l in s.vals && Watched(s.conns, l) && ToRead(cat, s, sid, ch, kv, trial, plan, l) != Announced(cat, s, plan, l)
  }

  /** Carried out and not broadcast, an intent leaves somebody behind exactly then. */
  lemma PerformBehind(cat: Catalog, s: State, sid: nat, ch: nat, kv: map<nat, IVal>, trial: bool, plan: Plan)
    requires Fits(cat, s.vals) && !plan.Refuse? && Coherent(s)
    ensures Coherent(Perform(cat, s, sid, ch, kv, trial, plan).s) <==> !Behind(cat, s, sid, ch, kv, trial, plan)
  {
    hide Perform, Fits, Coherent, Told, Announced, ToRead, Watched, SameConns;
    var b, t := Told(cat, s, plan), Perform(cat, s, sid, ch, kv, trial, plan).s;
    ToldCoherent(cat, s, plan);
    PerformTold(cat, s, sid, ch, kv, trial, plan);
    ToldConns(cat, s, plan);
    MissesWhen(b, t);
    forall l | l in s.vals
      ensures Watched(s.conns, l) <==> Watched(b.conns, l)
      ensures l in t.vals && t.vals[l] == ToRead(cat, s, sid, ch, kv, trial, plan, l)
    {
      SameAudience(s.conns, b.conns, l);
      PerformReads(cat, s, sid, ch, kv, trial, plan, l);
    }
  }

  lemma ThrownIs(cat: Catalog, s: State, sid: nat, m: Intent)
    requires Fits(cat, s.vals) && sid in s.conns && Throws(cat, s, sid, m)
    ensures var g, t := GateOf(cat, s.conns[sid], m), OnIntent(cat, s, sid, m).s;
            var o := Perform(cat, s, sid, g.e.id, g.kv, OnTrial(cat, m), Decision(cat, s, sid, m, g));
            Coherent(t) <==> Coherent(o.s)
  {
    hide GateOf, PlanOf, Perform, Followed, Reports, EchoThrows, CoherentBut;
    var g := GateOf(cat, s.conns[sid], m);
    var o := Perform(cat, s, sid, g.e.id, g.kv, OnTrial(cat, m), Decision(cat, s, sid, m, g));
    FollowedReply(cat, s, sid, g.e, g.kv, m.id, OnTrial(cat, m), Decision(cat, s, sid, m, g));
    BumpedCoherent(o.s, o.config);
  }

  lemma BumpedCoherent(s: State, config: bool)
    ensures Coherent(Bumped(s, config)) <==> Coherent(s)
  {
    hide Sees, SeesLatch;
  }

  /**
   * The event is an intent that throws after acting, and a place somebody watches is to read other than
   * was announced: all of it said of the state before.
   */
  ghost predicate LeavesBehind(cat: Catalog, s: State, ev: Event)
    requires Fits(cat, s.vals)
  {
    && ev.IntentFrame? && ev.sid in s.conns && Throws(cat, s, ev.sid, ev.m)
    && var g := GateOf(cat, s.conns[ev.sid], ev.m);
       Behind(cat, s, ev.sid, g.e.id, g.kv, OnTrial(cat, ev.m), Decision(cat, s, ev.sid, ev.m, g))
  }

  lemma IntentBehind(cat: Catalog, s: State, sid: nat, m: Intent)
    requires Fits(cat, s.vals) && sid in s.conns && Coherent(s)
    ensures Coherent(OnIntent(cat, s, sid, m).s) <==> !LeavesBehind(cat, s, IntentFrame(sid, m))
  {
    hide OnIntent, Coherent, GateOf, PlanOf, Perform, Behind, EchoThrows, Reports;
    AnsweredWhen(cat, s, sid, m);
    IntentCoherent(cat, s, sid, m);
    if Throws(cat, s, sid, m) {
      var g := GateOf(cat, s.conns[sid], m);
      ThrownIs(cat, s, sid, m);
      PerformBehind(cat, s, sid, g.e.id, g.kv, OnTrial(cat, m), Decision(cat, s, sid, m, g));
    }
  }

  /** Every event keeps all subscribers up to date, but for an intent that throws behind the back of one. */
  lemma NextCoherent(cat: Catalog, s: State, ev: Event)
    requires Fits(cat, s.vals) && Coherent(s)
    ensures Coherent(Next(cat, s, ev)) <==> !LeavesBehind(cat, s, ev)
  {
    hide OnIntent, LatchEstop, OnClose, Fits, OnHello, OnSubscribe, OnCatalogReady, Throws, Behind, PlanOf, GateOf;
    match ev
    case IntentFrame(sid, m) =>
      if sid in s.conns {
        IntentBehind(cat, s, sid, m);
      }
    case EstopFrame => EstopCoherent(cat, s);
    case Close(sid) => CloseCoherent(cat, s, sid);
    case Open(sid, _) =>
    case Hello(sid, _, _) =>
      if sid in s.conns {
        PlaneCoherent(cat, s, ev);
      }
    case CatalogReady(sid) =>
      if sid in s.conns {
        PlaneCoherent(cat, s, ev);
      }
    case Subscribe(sid, _) =>
      if sid in s.conns {
        PlaneCoherent(cat, s, ev);
      }
    case Unsubscribe(sid, _) =>
      if sid in s.conns {
        PlaneCoherent(cat, s, ev);
      }
  }

  /**
   * Subscribers hold what the hub holds throughout the first `k` steps of a run if and only if none
   * of those steps is an intent that throws behind the back of one.
   */
  lemma {:induction false} TraceCoherent(cat: Catalog, states: seq<State>, evs: seq<Event>, k: nat)
    requires Trace(cat, states, evs) && Coherent(states[0]) && k < |states| == |evs| + 1
    ensures (forall i :: 0 <= i <= k ==> Coherent(states[i])) <==> (forall i :: 0 <= i < k ==> !LeavesBehind(cat, states[i], evs[i]))
  {
    hide Next, LeavesBehind, Coherent;
    if k > 0 {
      TraceCoherent(cat, states, evs, k - 1);
      assert states[k] == Next(cat, states[k - 1], evs[k - 1]);
      if Coherent(states[k - 1]) {
        NextCoherent(cat, states[k - 1], evs[k - 1]);
      }
    }
  }

  /** An intent with an id, on a channel whose integers are bounded; or any other event. */
  ghost predicate Careful(cat: Catalog, ev: Event) {
    ev.IntentFrame? ==>
      ev.m.id.Some? && var e := cat.Find(ev.m.ch); e.Some? && e.value.IntentEntry? ==> Bounded(cat, e.value)
  }

  lemma CarefulKeeps(cat: Catalog, s: State, ev: Event)
    requires Fits(cat, s.vals) && Careful(cat, ev)
    ensures !LeavesBehind(cat, s, ev)
  {
    hide GateOf, PlanOf, Behind, Bounded, EchoThrows, Reports;
    if ev.IntentFrame? && ev.sid in s.conns && Throws(cat, s, ev.sid, ev.m) {
      CarefulAnswers(cat, s, ev.sid, ev.m);
    }
  }

  /** Callers who give an id and keep to bounded fields never leave a subscriber behind. */
  lemma {:induction false} CarefulCoherent(cat: Catalog, states: seq<State>, evs: seq<Event>, k: nat)
    requires Trace(cat, states, evs) && Coherent(states[0]) && k < |states| == |evs| + 1
    requires forall i :: 0 <= i < k ==> Careful(cat, evs[i])
    ensures Coherent(states[k])
  {
    hide Next, LeavesBehind, Coherent, Careful;
    forall i | 0 <= i < k
      ensures !LeavesBehind(cat, states[i], evs[i])
    {
      CarefulKeeps(cat, states[i], evs[i]);
    }
    TraceCoherent(cat, states, evs, k);
  }

  /** A subscriber to the level is up to date; a level set without an id is never broadcast to it. */
  lemma StaleSubscriber(single: PackedWrite.ToSingle)
    ensures var cat, s := Level(single), Levelled({100});
            Fits(cat, s.vals) && Coherent(s) && !Coherent(Next(cat, s, IntentFrame(7, SetLevel(None))))
  {
    hide GateOf, PlanOf, Throws, ToRead, Next;
    var cat, s, l := Level(single), Levelled({100}), Loc(100, 0);
    LevelPlaces(single);
    LevelThrown(single, {100}, None);
    LevelReads(single);
    assert Coherent(s);
    NextCoherent(cat, s, IntentFrame(7, SetLevel(None)));
    assert Watched(s.conns, l) && l in s.vals;
  }

  lemma LevelReads(single: PackedWrite.ToSingle)
    requires Fits(Level(single), Levelled({100}).vals)
    ensures var cat, s, l := Level(single), Levelled({100}), Loc(100, 0);
            ToRead(cat, s, 7, 200, LevelSaid(), OnTrial(cat, SetLevel(None)), Writes(false), l) != Announced(cat, s, Writes(false), l)
  {
    LevelPlaces(single);
    LevelWrites(single);
  }
}
