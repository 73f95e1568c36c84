/** Intents are atomic and take effect once (clients/js/localhub.js). */
module HubIntents {
  import opened Bytes
  import opened Packed
  import opened HubCatalog
  import opened Hub
  import opened HubPlaces
  import opened HubTrials
  import opened HubSteps
  import opened HubSafety
  import opened HubSources
  import opened HubDerived
  import PackedWrite

  // ---- atomicity ---------------------------------------------------------------------------------

  /** What the ECHO is to report: a write as its places clamp it. */
  function Reports(cat: Catalog, ch: nat, kv: map<nat, IVal>, plan: Plan): map<nat, IVal> {
    if plan.Writes? then Applied(cat, ch, kv) else kv
  }

  /** What the hub decides about an intent that passes the gate. */
  function Decision(cat: Catalog, s: State, sid: nat, m: Intent, g: Gate): Plan
    requires g.Pass? && g.e.IntentEntry?
  {
    PlanOf(cat, s, sid, g.e, g.kv, OnTrial(cat, m))
  }

  /** The intent is carried out. */
  predicate Carried(cat: Catalog, s: State, sid: nat, m: Intent, g: Gate)
    requires g.Pass? ==> g.e.IntentEntry?
  {
    g.Pass? && !Decision(cat, s, sid, m, g).Refuse?
  }

  /** The intent is carried out, and its ECHO cannot be encoded. */
  predicate Throws(cat: Catalog, s: State, sid: nat, m: Intent)
    requires sid in s.conns
  {
    var g := GateOf(cat, s.conns[sid], m);
    Carried(cat, s, sid, m, g) && EchoThrows(g.e, m.id, Reports(cat, g.e.id, g.kv, Decision(cat, s, sid, m, g)))
  }

  lemma PerformReports(cat: Catalog, s: State, sid: nat, ch: nat, kv: map<nat, IVal>, trial: bool, plan: Plan)
    requires Fits(cat, s.vals) && !plan.Refuse?
    ensures Perform(cat, s, sid, ch, kv, trial, plan).kv == Reports(cat, ch, kv, plan)
  {
    hide Fits, EndTrials, LatchEstop, Mutated, Applied, Written, Masked, MaskChannels, Settled;
  }

  /** An intent that is carried out is answered with an ECHO unless that cannot be encoded. */
  lemma FollowedReply(cat: Catalog, s: State, sid: nat, e: Entry, kv: map<nat, IVal>, id: Option<nat>, trial: bool, plan: Plan)
    requires Fits(cat, s.vals) && e.IntentEntry? && !plan.Refuse?
    ensures var r, throws := Followed(cat, s, sid, e, kv, id, trial, plan), EchoThrows(e, id, Reports(cat, e.id, kv, plan));
            && (r.reply.ThrownReply? <==> throws) && (r.reply.EchoReply? <==> !throws)
            && (throws ==> var o := Perform(cat, s, sid, e.id, kv, trial, plan); r.s == Bumped(o.s, o.config))
  {
    hide Perform, Fits, EchoThrows, Reports;
    PerformReports(cat, s, sid, e.id, kv, trial, plan);
  }

  /** How every intent is answered: by the gate, by the plan, and by whether its ECHO can be encoded. */
  lemma AnsweredWhen(cat: Catalog, s: State, sid: nat, m: Intent)
    requires Fits(cat, s.vals) && sid in s.conns
    ensures var r, g := OnIntent(cat, s, sid, m), GateOf(cat, s.conns[sid], m);
            && (r.reply.ThrownReply? <==> Throws(cat, s, sid, m))
            && (r.reply.EchoReply? <==> g.Replay? || (Carried(cat, s, sid, m, g) && !Throws(cat, s, sid, m)))
            && (!Carried(cat, s, sid, m, g) ==> r.s == s)
  {
    hide PlanOf, Followed, EchoThrows, Reports;
    var g := GateOf(cat, s.conns[sid], m);
    if g.Pass? {
      var plan := Decision(cat, s, sid, m, g);
      if plan.Refuse? {
        FollowedNack(cat, s, sid, g.e, g.kv, m.id, OnTrial(cat, m), plan);
      } else {
        FollowedReply(cat, s, sid, g.e, g.kv, m.id, OnTrial(cat, m), plan);
      }
    }
  }

  lemma FollowedNack(cat: Catalog, s: State, sid: nat, e: Entry, kv: map<nat, IVal>, id: Option<nat>, trial: bool, plan: Plan)
    requires Fits(cat, s.vals) && e.IntentEntry? && plan.Refuse?
    ensures Followed(cat, s, sid, e, kv, id, trial, plan) == Step(s, NackReply(plan.code))
  {
  }

  /** Nothing moved but what peers have been told. */
  ghost predicate Unmoved(a: State, b: State) {
    SameMachine(a, b) && a.cfgGen == b.cfgGen
  }

  /** The intent opens a trial, or ends one of its session's by a plain write. */
  predicate Settles(cat: Catalog, s: State, sid: nat, ch: nat, kv: map<nat, IVal>, trial: bool) {
    cat.TrialsOn() && exists k :: k in kv && (if trial then Setting(ch, k) !in s.trials else HeldBy(s.trials, Setting(ch, k), sid))
  }

  /** Carrying the plan out changes something, read off the state before it. */
  predicate Changes(cat: Catalog, s: State, sid: nat, ch: nat, kv: map<nat, IVal>, trial: bool, plan: Plan) {
    match plan
    case Refuse(_) => false
    case EndAll(_) => exists st :: st in s.trials && s.trials[st].sid == sid
    case Keep => Settles(cat, s, sid, ch, kv, trial)
    case EstopNow => !s.latch.estop || Settles(cat, s, sid, ch, kv, trial)
    case To(latch) => latch != s.latch || Settles(cat, s, sid, ch, kv, trial)
    case Leaves(_, _) => true
    case Writes(homed) => homed || WriteChannels(cat, s, ch, kv) != {} || Settles(cat, s, sid, ch, kv, trial)
  }

  lemma SettledSame(cat: Catalog, s: State, sid: nat, ch: nat, kv: map<nat, IVal>, trial: bool)
    requires cat.TrialsOn()
    ensures Settled(cat, s.vals, s.trials, sid, ch, kv, trial) == s.trials <==> !Settles(cat, s, sid, ch, kv, trial)
  {
    hide Base;
    var after := Settled(cat, s.vals, s.trials, sid, ch, kv, trial);
    if Settles(cat, s, sid, ch, kv, trial) {
      var k :| k in kv && if trial then Setting(ch, k) !in s.trials else HeldBy(s.trials, Setting(ch, k), sid);
      assert Setting(ch, k) in SettingsNamed(ch, kv);
      assert Setting(ch, k) in after <==> Setting(ch, k) !in s.trials;
    } else {
      forall st
        ensures st in after <==> st in s.trials
      {
      }
    }
  }

  /** Marks in step stay as they are. */
  lemma MaskedSame(cat: Catalog, s: State)
    requires Fits(cat, s.vals) && MarksAgree(cat, s)
    ensures Masked(cat, s) == s
  {
    hide MaskByte, StoredAt;
    assert Masked(cat, s).vals == s.vals;
  }

  lemma EndSame(cat: Catalog, s: State, sid: nat, commit: bool)
    requires Fits(cat, s.vals) && MarksAgree(cat, s) && forall st :: st in s.trials ==> s.trials[st].sid != sid
    ensures EndTrials(cat, s, sid, commit).s == s && !EndTrials(cat, s, sid, commit).moved
  {
    hide StoredAt, Masked, MaskChannels;
    assert Dropped(s.trials, sid) == s.trials;
    assert Reverted(cat, s, sid).vals == s.vals;
    assert RevertChannels(cat, s, sid) == {};
    MaskedSame(cat, s);
  }

  lemma WrittenSame(cat: Catalog, s: State, ch: nat, kv: map<nat, IVal>)
    requires Fits(cat, s.vals) && WriteChannels(cat, s, ch, kv) == {}
    ensures Written(cat, s.vals, ch, kv) == s.vals
  {
    hide WriteAt, StoredAt;
    assert forall l :: l in s.vals && WriteAt(cat, ch, kv, l).Some? ==> l.ch in WriteChannels(cat, s, ch, kv);
  }

  /** What carrying out a plan leaves alone before the trials are settled. */
  lemma EnactSame(cat: Catalog, s: State, sid: nat, ch: nat, kv: map<nat, IVal>, plan: Plan)
    requires Fits(cat, s.vals) && MarksAgree(cat, s) && !plan.Refuse?
    requires match plan
             case EstopNow => s.latch.estop
             case To(latch) => latch == s.latch
             case Leaves(_, _) => false
             case Writes(homed) => !homed && WriteChannels(cat, s, ch, kv) == {}
             case EndAll(_) => forall st :: st in s.trials ==> s.trials[st].sid != sid
             case Keep => true
    ensures var o := Enact(cat, s, sid, ch, kv, plan); Unmoved(s, o.s) && !o.config
  {
    hide Fits, MarksAgree, EndTrials, Mutated, Written, Applied, WriteChannels, RosterChannels;
    match plan
    case Writes(_) => WrittenSame(cat, s, ch, kv);
    case EndAll(commit) => EndSame(cat, s, sid, commit);
    case _ =>
  }

  lemma PerformSame(cat: Catalog, s: State, sid: nat, ch: nat, kv: map<nat, IVal>, trial: bool, plan: Plan)
    requires Fits(cat, s.vals) && MarksAgree(cat, s) && !plan.Refuse? && !Changes(cat, s, sid, ch, kv, trial, plan)
    ensures var o := Perform(cat, s, sid, ch, kv, trial, plan); Unmoved(s, o.s) && !o.config
  {
    hide Enact, Fits, Settled, Settles, Masked, MaskChannels, WriteChannels;
    EnactSame(cat, s, sid, ch, kv, plan);
    if !plan.EndAll? && cat.TrialsOn() {
      var o := Enact(cat, s, sid, ch, kv, plan);
      SettledSame(cat, s, sid, ch, kv, trial);
      MarksOf(cat, s, o.s);
      MaskedSame(cat, o.s);
    }
  }

  lemma MarksOf(cat: Catalog, s: State, t: State)
    requires MarksAgree(cat, s) && t.vals == s.vals && t.trials == s.trials
    ensures MarksAgree(cat, t)
  {
    hide MarkOf, IsMark;
  }

  /** What a plan that changes something moves before the trials are settled. */
  lemma EnactMoves(cat: Catalog, s: State, sid: nat, ch: nat, kv: map<nat, IVal>, plan: Plan)
    requires Fits(cat, s.vals) && !plan.Refuse? && (plan.Writes? && plan.homed ==> s.latch.homeRequired)
    requires match plan
             case EstopNow => !s.latch.estop
             case To(latch) => latch != s.latch
             case Leaves(_, _) => true
             case Writes(homed) => homed || WriteChannels(cat, s, ch, kv) != {}
             case EndAll(_) => exists st :: st in s.trials && s.trials[st].sid == sid
             case Keep => false
    ensures var o := Enact(cat, s, sid, ch, kv, plan);
            if plan.EndAll? then o.s.trials != s.trials
            else o.config || o.s.latch != s.latch || o.s.gens != s.gens
  {
    hide Fits, EndTrials, Mutated, Written, Applied, WriteChannels, RosterChannels, Show;
    match plan
    case EndAll(commit) =>
      EndDrops(cat, s, sid, commit);
    case Leaves(items, d) =>
      MutatedGen(cat, s, items, d);
    case _ =>
  }

  lemma MutatedGen(cat: Catalog, s: State, items: map<nat, Item>, d: StoreDesc)
    requires Fits(cat, s.vals)
    ensures Mutated(cat, s, items, d).gens != s.gens
  {
    assert GenOf(Mutated(cat, s, items, d).gens, d.storeId) != GenOf(s.gens, d.storeId);
  }

  /** The settling of trials and marks touches nothing else. */
  lemma SettleKeeps(cat: Catalog, before: map<Loc, Val>, o: Outcome, sid: nat, ch: nat, kv: map<nat, IVal>, trial: bool)
    requires Fits(cat, o.s.vals)
    ensures var r := Settle(cat, before, o, sid, ch, kv, trial);
            && r.s.latch == o.s.latch && r.s.gens == o.s.gens && r.s.items == o.s.items && r.s.cfgGen == o.s.cfgGen
            && r.config == o.config && r.s.trials == Settled(cat, before, o.s.trials, sid, ch, kv, trial)
  {
    hide Settled, MaskChannels;
  }

  lemma PerformMoves(cat: Catalog, s: State, sid: nat, ch: nat, kv: map<nat, IVal>, trial: bool, plan: Plan)
    requires Fits(cat, s.vals) && !plan.Refuse? && (plan.Writes? && plan.homed ==> s.latch.homeRequired)
    requires Changes(cat, s, sid, ch, kv, trial, plan)
    ensures var o := Perform(cat, s, sid, ch, kv, trial, plan); !Unmoved(s, Bumped(o.s, o.config))
  {
    hide Enact, Fits, Settled, Settles, Settle, WriteChannels;
    var o := Enact(cat, s, sid, ch, kv, plan);
    EnactGen(cat, s, sid, ch, kv, plan);
    if !plan.EndAll? && cat.TrialsOn() {
      SettleKeeps(cat, s.vals, o, sid, ch, kv, trial);
      EnactTrials(cat, s, sid, ch, kv, plan);
      SettledSame(cat, s, sid, ch, kv, trial);
    }
    if plan.EndAll? || !(cat.TrialsOn() && Settles(cat, s, sid, ch, kv, trial)) {
      NotSettles(cat, s, sid, ch, kv, trial);
      EnactMoves(cat, s, sid, ch, kv, plan);
    }
  }

  lemma NotSettles(cat: Catalog, s: State, sid: nat, ch: nat, kv: map<nat, IVal>, trial: bool)
    ensures Settles(cat, s, sid, ch, kv, trial) ==> cat.TrialsOn()
  {
  }

  lemma EnactGen(cat: Catalog, s: State, sid: nat, ch: nat, kv: map<nat, IVal>, plan: Plan)
    requires Fits(cat, s.vals) && !plan.Refuse?
    ensures Enact(cat, s, sid, ch, kv, plan).s.cfgGen == s.cfgGen
  {
    hide Fits, Applied, WriteChannels, RosterChannels, MaskValue, RevertValue, StoreAt, Truthy;
  }

  /**
   * An intent that is not answered with an ECHO leaves the hub as it was, unless it was carried out,
   * its ECHO could not be encoded, and carrying it out changed something; then it does not.
   */
  lemma Atomic(cat: Catalog, s: State, sid: nat, m: Intent)
    requires Fits(cat, s.vals) && sid in s.conns && MarksAgree(cat, s)
    requires !OnIntent(cat, s, sid, m).reply.EchoReply?
    ensures var t, g := OnIntent(cat, s, sid, m).s, GateOf(cat, s.conns[sid], m);
            && (!Throws(cat, s, sid, m) ==> t == s)
            && (Unmoved(s, t) <==>
                 !(Throws(cat, s, sid, m)
                   && Changes(cat, s, sid, g.e.id, g.kv, OnTrial(cat, m), Decision(cat, s, sid, m, g))))
  {
    hide PlanOf, Followed, Perform, GateOf, Changes, EchoThrows, Reports;
    var g := GateOf(cat, s.conns[sid], m);
    AnsweredWhen(cat, s, sid, m);
    if Throws(cat, s, sid, m) {
      var plan, trial := Decision(cat, s, sid, m, g), OnTrial(cat, m);
      FollowedReply(cat, s, sid, g.e, g.kv, m.id, trial, plan);
      PlanHomes(cat, s, sid, g.e, g.kv, trial);
      if Changes(cat, s, sid, g.e.id, g.kv, trial, plan) {
        PerformMoves(cat, s, sid, g.e.id, g.kv, trial, plan);
      } else {
        PerformSame(cat, s, sid, g.e.id, g.kv, trial, plan);
      }
    }
  }

  lemma PlanHomes(cat: Catalog, s: State, sid: nat, e: Entry, kv: map<nat, IVal>, trial: bool)
    requires e.IntentEntry?
    ensures var plan := PlanOf(cat, s, sid, e, kv, trial); plan.Writes? && plan.homed ==> s.latch.homeRequired
  {
    hide PlanOf, WriteRefusal;
    PlanWrites(cat, s, sid, e, kv, trial);
  }

  /** Two connections agree on everything but what they have been told. */
  predicate SameConn(a: Conn, b: Conn) {
    a.ready == b.ready && a.roles == b.roles && a.subs == b.subs && a.ring == b.ring
  }

  ghost predicate SameConns(a: map<nat, Conn>, b: map<nat, Conn>) {
    a.Keys == b.Keys && forall sid :: sid in a ==> SameConn(a[sid], b[sid])
  }

  lemma EnactConns(cat: Catalog, s: State, sid: nat, ch: nat, kv: map<nat, IVal>, plan: Plan)
    requires Fits(cat, s.vals) && !plan.Refuse?
    ensures SameConns(s.conns, Enact(cat, s, sid, ch, kv, plan).s.conns)
  {
    hide Fits, EndTrials, LatchEstop, Mutated, Applied, WriteChannels, RosterChannels, StoreAt;
    match plan
    case EstopNow => EstopConns(cat, s);
    case Leaves(items, d) => MutatedConns(cat, s, items, d);
    case EndAll(commit) => EndConns(cat, s, sid, commit);
    case _ =>
  }

  lemma EstopConns(cat: Catalog, s: State)
    requires Fits(cat, s.vals)
    ensures SameConns(s.conns, LatchEstop(cat, s).conns)
  {
    hide Fits;
  }

  lemma MutatedConns(cat: Catalog, s: State, items: map<nat, Item>, d: StoreDesc)
    requires Fits(cat, s.vals)
    ensures Mutated(cat, s, items, d).conns == s.conns
  {
  }

  lemma EndConns(cat: Catalog, s: State, sid: nat, commit: bool)
    requires Fits(cat, s.vals)
    ensures EndTrials(cat, s, sid, commit).s.conns == s.conns
  {
    hide Fits;
  }

  lemma PerformConns(cat: Catalog, s: State, sid: nat, ch: nat, kv: map<nat, IVal>, trial: bool, plan: Plan)
    requires Fits(cat, s.vals) && !plan.Refuse?
    ensures SameConns(s.conns, Perform(cat, s, sid, ch, kv, trial, plan).s.conns)
  {
    hide Enact, Settled;
    EnactConns(cat, s, sid, ch, kv, plan);
  }

  ghost predicate RingPushed(s: State, sid: nat, echo: Echo, t: State)
    requires sid in s.conns
  {
    && t.conns.Keys == s.conns.Keys
    && SameConn(t.conns[sid], s.conns[sid].(ring := Pushed(s.conns[sid].ring, echo)))
    && forall other :: other in s.conns && other != sid ==> SameConn(s.conns[other], t.conns[other])
  }

  /** An answered intent pushes its echo on its own connection's ring, and touches no other ring. */
  lemma AnsweredConns(b: State, sid: nat, e: Entry, id: Option<nat>, o: Outcome)
    requires e.IntentEntry? && sid in b.conns
    ensures var r := Answered(b, sid, e, id, o);
            && (r.reply.ThrownReply? ==> r.s == b)
            && !r.reply.NackReply?
            && (r.reply.EchoReply? ==> id == Some(r.reply.e.id) && RingPushed(b, sid, r.reply.e, r.s))
  {
    hide EchoApplied, Pushed, EchoEncodable;
  }

  /** What an intent does to the connections. */
  ghost predicate ConnsMove(cat: Catalog, s: State, sid: nat, m: Intent, r: Step)
    requires sid in s.conns
  {
    if GateOf(cat, s.conns[sid], m).Pass? && r.reply.EchoReply? then
      m.id == Some(r.reply.e.id) && RingPushed(s, sid, r.reply.e, r.s)
    else SameConns(s.conns, r.s.conns)
  }

  lemma FollowedConns(cat: Catalog, s: State, sid: nat, e: Entry, kv: map<nat, IVal>, m: Intent, trial: bool, plan: Plan)
    requires Fits(cat, s.vals) && sid in s.conns && e.IntentEntry? && GateOf(cat, s.conns[sid], m).Pass?
    ensures ConnsMove(cat, s, sid, m, Followed(cat, s, sid, e, kv, m.id, trial, plan))
  {
    hide Perform, GateOf, Answered, Fits;
    if !plan.Refuse? {
      var o := Perform(cat, s, sid, e.id, kv, trial, plan);
      PerformConns(cat, s, sid, e.id, kv, trial, plan);
      AnsweredConns(Bumped(o.s, o.config), sid, e, m.id, o);
    }
  }

  lemma IntentConns(cat: Catalog, s: State, sid: nat, m: Intent)
    requires Fits(cat, s.vals) && sid in s.conns
    ensures ConnsMove(cat, s, sid, m, OnIntent(cat, s, sid, m))
  {
    hide Followed, PlanOf, ConnsMove;
    var g := GateOf(cat, s.conns[sid], m);
    if g.Pass? {
      FollowedConns(cat, s, sid, g.e, g.kv, m, OnTrial(cat, m), PlanOf(cat, s, sid, g.e, g.kv, OnTrial(cat, m)));
    } else {
      StillConns(cat, s, sid, m);
    }
  }

  lemma StillConns(cat: Catalog, s: State, sid: nat, m: Intent)
    requires Fits(cat, s.vals) && sid in s.conns && !GateOf(cat, s.conns[sid], m).Pass?
    ensures ConnsMove(cat, s, sid, m, OnIntent(cat, s, sid, m))
  {
    hide Followed, PlanOf;
  }

  // ---- the ring -----------------------------------------------------------------------------------------

  /** The answer of an intent of `sid` that the hub carries out at this event. */
  function EchoOf(cat: Catalog, s: State, ev: Event, sid: nat): Option<Echo>
    requires Fits(cat, s.vals)
  {
    if ev.IntentFrame? && ev.sid == sid && sid in s.conns && GateOf(cat, s.conns[sid], ev.m).Pass?
       && OnIntent(cat, s, sid, ev.m).reply.EchoReply?
    then Some(OnIntent(cat, s, sid, ev.m).reply.e) else None
  }

  /** A session's ring after one event that is not its HELLO; its rights only grow. */
  ghost predicate RingMoves(cat: Catalog, s: State, ev: Event, t: State, sid: nat)
    requires Fits(cat, s.vals) && sid in s.conns && sid in t.conns
  {
    var c, d, echo := s.conns[sid], t.conns[sid], EchoOf(cat, s, ev, sid);
    && d.ring == (if echo.Some? then Pushed(c.ring, echo.value) else c.ring)
    && (echo.Some? ==> ev.m.id == Some(echo.value.id) && EchoIn(c.ring, echo.value.id).None?)
    && d.roles == c.roles && (c.ready ==> d.ready)
  }

  lemma IntentRing(cat: Catalog, s: State, who: nat, m: Intent, sid: nat)
    requires Fits(cat, s.vals) && who in s.conns && sid in s.conns
    ensures sid in OnIntent(cat, s, who, m).s.conns
    ensures RingMoves(cat, s, IntentFrame(who, m), OnIntent(cat, s, who, m).s, sid)
  {
    hide OnIntent, Validated;
    IntentConns(cat, s, who, m);
    IntentAnswer(cat, s, who, m);
  }

  /** Past the gate the answer is never a replay. */
  lemma IntentAnswer(cat: Catalog, s: State, sid: nat, m: Intent)
    requires sid in s.conns
    ensures GateOf(cat, s.conns[sid], m).Pass? && m.id.Some? ==> EchoIn(s.conns[sid].ring, m.id.value).None?
  {
    hide Validated, Exempt;
  }

  lemma NextRing(cat: Catalog, s: State, ev: Event, sid: nat)
    requires Fits(cat, s.vals) && sid in s.conns && sid in Next(cat, s, ev).conns && !(ev.Hello? && ev.sid == sid)
    ensures RingMoves(cat, s, ev, Next(cat, s, ev), sid)
  {
    hide OnIntent, EndTrials, LatchEstop, GateOf, Granted, OnSubscribe;
    match ev
    case IntentFrame(who, m) =>
      if who in s.conns {
        IntentRing(cat, s, who, m, sid);
      }
    case EstopFrame => EstopConns(cat, s);
    case Close(who) => CloseConns(cat, s, who, sid);
    case Subscribe(who, wishes) =>
      if who in s.conns {
        SubscribeConns(cat, s, who, wishes, sid);
      }
    case _ =>
  }

  lemma CloseConns(cat: Catalog, s: State, who: nat, sid: nat)
    requires Fits(cat, s.vals) && sid in s.conns
    ensures sid in OnClose(cat, s, who).conns <==> sid != who
    ensures sid != who ==> SameConn(s.conns[sid], OnClose(cat, s, who).conns[sid])
  {
    hide EndTrials, Fits;
    EndConns(cat, s.(conns := s.conns - {who}), who, false);
  }

  lemma SubscribeConns(cat: Catalog, s: State, who: nat, wishes: seq<nat>, sid: nat)
    requires sid in s.conns && who in s.conns
    ensures OnSubscribe(cat, s, who, wishes).conns.Keys == s.conns.Keys
    ensures var c, d := s.conns[sid], OnSubscribe(cat, s, who, wishes).conns[sid];
            d.ring == c.ring && d.roles == c.roles && d.ready == c.ready
  {
  }

  /** The newest 32 of a history. */
  function Newest(h: seq<Echo>): seq<Echo> {
    if |h| <= 32 then h else h[|h| - 32..]
  }

  lemma PushNewest(h: seq<Echo>, e: Echo)
    ensures Pushed(Newest(h), e) == Newest(h + [e])
  {
    if |h| >= 32 {
      assert h[|h| - 32..] == [h[|h| - 32]] + h[|h| + 1 - 32..];
    }
  }

  /** The session is open from `i` to `j` and sends no HELLO between. */
  ghost predicate Session(states: seq<State>, evs: seq<Event>, sid: nat, i: nat, j: nat)
    requires i <= j < |states| == |evs| + 1
  {
    && (forall k :: i <= k <= j ==> sid in states[k].conns)
    && (forall k :: i <= k < j ==> !(evs[k].Hello? && evs[k].sid == sid))
  }

  /** The answers to the session's carried-out intents, oldest first. */
  ghost function History(cat: Catalog, states: seq<State>, evs: seq<Event>, sid: nat, i: nat, j: nat): seq<Echo>
    requires i <= j < |states| == |evs| + 1 && forall k :: 0 <= k < |states| ==> Fits(cat, states[k].vals)
  {
    if j == i then []
    else
      var echo := EchoOf(cat, states[j - 1], evs[j - 1], sid);
      History(cat, states, evs, sid, i, j - 1) + (if echo.Some? then [echo.value] else [])
  }

  lemma StepRing(cat: Catalog, states: seq<State>, evs: seq<Event>, sid: nat, k: nat)
    requires Trace(cat, states, evs) && k < |evs| && |states| == |evs| + 1
    requires sid in states[k].conns && sid in states[k + 1].conns && !(evs[k].Hello? && evs[k].sid == sid)
    ensures RingMoves(cat, states[k], evs[k], states[k + 1], sid)
  {
    hide Next, RingMoves;
    NextRing(cat, states[k], evs[k], sid);
  }

  /** The ring holds exactly the newest 32 answers since the HELLO that emptied it. */
  lemma {:induction false} RingIsHistory(cat: Catalog, states: seq<State>, evs: seq<Event>, sid: nat, i: nat, j: nat)
    requires Trace(cat, states, evs) && i <= j < |states| == |evs| + 1 && Session(states, evs, sid, i, j)
    requires states[i].conns[sid].ring == []
    ensures states[j].conns[sid].ring == Newest(History(cat, states, evs, sid, i, j))
  {
    hide Next, EchoOf, Pushed, Newest;
    if j == i {
      assert Newest([]) == [] by { EmptyNewest(); }
    } else {
      RingIsHistory(cat, states, evs, sid, i, j - 1);
      StepRing(cat, states, evs, sid, j - 1);
      var echo := EchoOf(cat, states[j - 1], evs[j - 1], sid);
      var h := History(cat, states, evs, sid, i, j - 1);
      if echo.Some? {
        PushNewest(h, echo.value);
      } else {
        assert h + [] == h;
      }
    }
  }

  lemma EmptyNewest()
    ensures Newest([]) == []
  {
  }

  // ---- exactly once ------------------------------------------------------------------------------------------

  /** A ring as sessions have it: at most 32 answers, no id twice. */
  ghost predicate RingOk(ring: seq<Echo>) {
    |ring| <= 32 && forall a, b :: 0 <= a < b < |ring| ==> ring[a].id != ring[b].id
  }

  lemma {:induction false} NotIn(ring: seq<Echo>, id: nat)
    ensures EchoIn(ring, id).None? <==> forall k :: 0 <= k < |ring| ==> ring[k].id != id
  {
    if ring != [] {
      NotIn(ring[1..], id);
      assert forall k :: 0 < k < |ring| ==> ring[k] == ring[1..][k - 1];
      if EchoIn(ring, id).Some? && ring[0].id != id {
        var k :| 0 <= k < |ring[1..]| && ring[1..][k].id == id;
        assert ring[k + 1].id == id;
      }
    }
  }

  lemma {:induction false} FindsAt(ring: seq<Echo>, k: nat)
    requires k < |ring| && RingOk(ring)
    ensures EchoIn(ring, ring[k].id) == Some(ring[k])
  {
    if k > 0 {
      assert RingOk(ring[1..]);
      FindsAt(ring[1..], k - 1);
    }
  }

  lemma PushedOk(ring: seq<Echo>, e: Echo)
    requires RingOk(ring) && EchoIn(ring, e.id).None?
    ensures RingOk(Pushed(ring, e))
  {
    NotIn(ring, e.id);
  }

  /** The ring ends with `echo` and the answers after it. */
  ghost predicate EndsWith(ring: seq<Echo>, tail: seq<Echo>) {
    |tail| <= |ring| && ring[|ring| - |tail|..] == tail
  }

  lemma PushKeepsEnd(ring: seq<Echo>, tail: seq<Echo>, e: Echo)
    requires |ring| <= 32 && |tail| < 32 && EndsWith(ring, tail)
    ensures EndsWith(Pushed(ring, e), tail + [e])
  {
    if |ring| == 32 {
      assert ring[1..][|ring| - 1 - |tail|..] == tail;
    }
  }

  lemma {:induction false} StillThere(cat: Catalog, states: seq<State>, evs: seq<Event>, sid: nat, i: nat, j: nat)
    requires Trace(cat, states, evs) && i < j < |states| == |evs| + 1 && Session(states, evs, sid, i, j)
    requires RingOk(states[i].conns[sid].ring) && EchoOf(cat, states[i], evs[i], sid).Some?
    requires |History(cat, states, evs, sid, i + 1, j)| < 32
    ensures var c, d := states[i].conns[sid], states[j].conns[sid];
            && RingOk(d.ring) && d.roles == c.roles && (c.ready ==> d.ready)
            && EndsWith(d.ring, [EchoOf(cat, states[i], evs[i], sid).value] + History(cat, states, evs, sid, i + 1, j))
    decreases j
  {
    hide Next, EchoOf, Pushed, RingOk, EndsWith, Fits;
    StepRing(cat, states, evs, sid, j - 1);
    var first := EchoOf(cat, states[i], evs[i], sid).value;
    if j == i + 1 {
      PushedOk(states[i].conns[sid].ring, first);
      LastPushed(states[i].conns[sid].ring, first);
      assert [first] + [] == [first];
    } else {
      StillThere(cat, states, evs, sid, i, j - 1);
      var ring, echo := states[j - 1].conns[sid].ring, EchoOf(cat, states[j - 1], evs[j - 1], sid);
      var h := History(cat, states, evs, sid, i + 1, j - 1);
      if echo.Some? {
        PushedOk(ring, echo.value);
        OkSize(ring);
        PushKeepsEnd(ring, [first] + h, echo.value);
        assert [first] + h + [echo.value] == [first] + (h + [echo.value]);
      } else {
        assert h + [] == h;
      }
    }
  }

  lemma OkSize(ring: seq<Echo>)
    requires RingOk(ring)
    ensures |ring| <= 32
  {
  }

  lemma LastPushed(ring: seq<Echo>, e: Echo)
    ensures EndsWith(Pushed(ring, e), [e])
  {
  }

  /** What passed the gate once meets its own answer there as long as the ring holds it. */
  lemma GateReplays(cat: Catalog, c: Conn, d: Conn, m: Intent, echo: Echo)
    requires GateOf(cat, c, m).Pass? && d.roles == c.roles && (c.ready ==> d.ready)
    requires m.id == Some(echo.id) && EchoIn(d.ring, echo.id) == Some(echo)
    ensures GateOf(cat, d, m) == Replay(echo)
  {
    hide Validated;
  }

  /**
   * Re-sending an intent that was carried out, before 32 later ones of its session are, is answered
   * with the identical ECHO and changes nothing.
   */
  lemma ExactlyOnce(cat: Catalog, states: seq<State>, evs: seq<Event>, sid: nat, i: nat, j: nat)
    requires Trace(cat, states, evs) && i < j < |evs| && |states| == |evs| + 1 && Session(states, evs, sid, i, j)
    requires RingOk(states[i].conns[sid].ring) && EchoOf(cat, states[i], evs[i], sid).Some?
    requires |History(cat, states, evs, sid, i + 1, j)| < 32
    requires evs[j] == evs[i]
    ensures evs[j].IntentFrame?
    ensures OnIntent(cat, states[j], sid, evs[j].m) == Step(states[j], EchoReply(EchoOf(cat, states[i], evs[i], sid).value))
    ensures states[j + 1] == states[j]
  {
    hide History, RingOk, Validated, Exempt;
    StillThere(cat, states, evs, sid, i, j);
    StepRing(cat, states, evs, sid, i);
    var echo := EchoOf(cat, states[i], evs[i], sid).value;
    var ring := states[j].conns[sid].ring;
    var tail := [echo] + History(cat, states, evs, sid, i + 1, j);
    TailHead(ring, tail);
    FindsAt(ring, |ring| - |tail|);
    GateReplays(cat, states[i].conns[sid], states[j].conns[sid], evs[i].m, echo);
  }

  lemma TailHead(ring: seq<Echo>, tail: seq<Echo>)
    requires EndsWith(ring, tail) && tail != []
    ensures ring[|ring| - |tail|] == tail[0]
  {
  }

  ghost predicate AllRingsOk(s: State) {
    forall sid :: sid in s.conns ==> RingOk(s.conns[sid].ring)
  }

  /** A session that was not there before, or that sends HELLO, has an empty ring. */
  lemma FreshRing(cat: Catalog, s: State, ev: Event, sid: nat)
    requires Fits(cat, s.vals) && sid in Next(cat, s, ev).conns
    requires sid !in s.conns || (ev.Hello? && ev.sid == sid)
    ensures Next(cat, s, ev).conns[sid].ring == []
  {
    hide OnIntent, EndTrials, LatchEstop, GateOf, Granted, OnSubscribe, Fits;
    match ev
    case IntentFrame(who, m) =>
      if who in s.conns {
        IntentConns(cat, s, who, m);
      }
    case EstopFrame => EstopConns(cat, s);
    case Close(who) => EndConns(cat, s.(conns := s.conns - {who}), who, false);
    case Subscribe(who, wishes) =>
      if who in s.conns {
        SubscribeConns(cat, s, who, wishes, who);
      }
    case _ =>
  }

  lemma NextRingsOk(cat: Catalog, s: State, ev: Event)
    requires Fits(cat, s.vals) && AllRingsOk(s)
    ensures AllRingsOk(Next(cat, s, ev))
  {
    hide Next, EchoOf, RingOk, Pushed, EchoIn;
    var t := Next(cat, s, ev);
    forall sid | sid in t.conns
      ensures RingOk(t.conns[sid].ring)
    {
      if sid !in s.conns || (ev.Hello? && ev.sid == sid) {
        FreshRing(cat, s, ev, sid);
        EmptyOk();
      } else {
        NextRing(cat, s, ev, sid);
        if EchoOf(cat, s, ev, sid).Some? {
          PushedOk(s.conns[sid].ring, EchoOf(cat, s, ev, sid).value);
        }
      }
    }
  }

  lemma EmptyOk()
    ensures RingOk([])
  {
  }

  /** In every state of a run every ring is sound. */
  lemma {:induction false} TraceRingsOk(cat: Catalog, states: seq<State>, evs: seq<Event>, k: nat)
    requires Trace(cat, states, evs) && AllRingsOk(states[0]) && k < |states|
    ensures AllRingsOk(states[k])
  {
    hide Next, AllRingsOk;
    if k > 0 {
      TraceRingsOk(cat, states, evs, k - 1);
      NextRingsOk(cat, states[k - 1], evs[k - 1]);
    }
  }

  // ---- what a caller can do about it ---------------------------------------------------------------------

  const LOWEST := -4294967296.0
  const HIGHEST := 4294967295.0

  /** Numbers an ECHO carries whole or not. */
  predicate Ranged(kind: CborKind, r: real) {
    (kind == UIntT ==> r <= HIGHEST) && (kind == IntT ==> LOWEST <= r <= HIGHEST)
  }

  /** Clamping to these bounds keeps a number in range. */
  predicate BoundsKeep(kind: CborKind, min: Option<real>, max: Option<real>) {
    (min.Some? ==> min.value <= HIGHEST) && (kind == IntT && max.Some? ==> max.value >= LOWEST)
  }

  /** Clamping to these bounds brings any number into range. */
  predicate BoundsCap(kind: CborKind, min: Option<real>, max: Option<real>) {
    max.Some? && max.value <= HIGHEST && (kind == IntT ==> min.Some? && min.value >= LOWEST && max.value >= LOWEST)
  }

  /** The field's options or bounds keep its numbers in range, and so do those of the place it writes last. */
  predicate FieldBounded(cat: Catalog, ch: nat, f: SchemaField) {
    var place := LastMirror(cat.entries, |cat.entries|, ch, f.key);
    && ((f.options.Some? && f.options.value as real <= HIGHEST && BoundsKeep(f.kind, f.min, f.max)) || BoundsCap(f.kind, f.min, f.max))
    && (place.Some? ==> BoundsKeep(f.kind, place.value.min, place.value.max))
  }

  /** Every integer field of an INTENT channel that is no secret is bounded. */
  ghost predicate Bounded(cat: Catalog, e: Entry)
    requires e.IntentEntry?
  {
    forall f :: f in e.schema && (f.kind == UIntT || f.kind == IntT) && !f.secret ==> FieldBounded(cat, e.id, f)
  }

  lemma {:induction false} FieldKeyed(schema: seq<SchemaField>, key: nat)
    ensures var f := FieldByKey(schema, key); f.Some? ==> f.value in schema && f.value.key == key
  {
    if schema != [] {
      FieldKeyed(schema[1..], key);
    }
  }

  /** A value that its field's ECHO carries. */
  predicate Carries(e: Entry, k: nat, v: IVal)
    requires e.IntentEntry?
  {
    FieldByKey(e.schema, k).Some? && !FieldByKey(e.schema, k).value.secret && v.INum? ==> Ranged(FieldByKey(e.schema, k).value.kind, v.r)
  }

  lemma CoercedCarries(cat: Catalog, e: Entry, k: nat, v: IVal)
    requires e.IntentEntry? && Bounded(cat, e) && FieldByKey(e.schema, k).Some?
    ensures var x := Coerced(FieldByKey(e.schema, k).value, v); x.Some? ==> Carries(e, k, x.value)
  {
    hide FieldByKey, LastMirror;
    FieldKeyed(e.schema, k);
  }

  lemma {:induction false} ValidatedCarries(cat: Catalog, e: Entry, roles: nat, value: seq<KV>, sofar: map<nat, IVal>)
    requires e.IntentEntry? && Bounded(cat, e) && forall k :: k in sofar ==> Carries(e, k, sofar[k])
    ensures var c := Validated(e, roles, value, sofar); c.Good? ==> forall k :: k in c.kv ==> Carries(e, k, c.kv[k])
    decreases value
  {
    hide FieldByKey, Coerced, NeedFor, Carries, Bounded;
    if value != [] {
      var f := FieldByKey(e.schema, value[0].key);
      if f.Some? && roles >= NeedFor(e, f.value, value[0].v) && Coerced(f.value, value[0].v).Some? {
        var next := sofar[value[0].key := Coerced(f.value, value[0].v).value];
        CoercedCarries(cat, e, value[0].key, value[0].v);
        ValidatedCarries(cat, e, roles, value[1..], next);
        assert Validated(e, roles, value, sofar) == Validated(e, roles, value[1..], next);
      }
    }
  }

  lemma AppliedCarries(cat: Catalog, e: Entry, k: nat, v: IVal)
    requires e.IntentEntry? && Bounded(cat, e) && Carries(e, k, v)
    ensures Carries(e, k, AppliedValue(cat.entries, e.id, k, v))
  {
    hide FieldByKey, LastMirror;
    FieldKeyed(e.schema, k);
  }

  lemma CarriesEncodes(e: Entry, k: nat, v: IVal)
    requires e.IntentEntry? && FieldByKey(e.schema, k).Some? && Carries(e, k, v)
    ensures EchoEncodable(FieldByKey(e.schema, k).value, v)
  {
    hide FieldByKey;
  }

  lemma ReportsEncode(cat: Catalog, e: Entry, id: nat, kv: map<nat, IVal>, plan: Plan)
    requires e.IntentEntry? && Bounded(cat, e) && forall k :: k in kv ==> Carries(e, k, kv[k])
    ensures !EchoThrows(e, Some(id), Reports(cat, e.id, kv, plan))
  {
    hide FieldByKey, EchoEncodable, Carries, Bounded, AppliedValue;
    var rs := Reports(cat, e.id, kv, plan);
    forall k | k in rs && FieldByKey(e.schema, k).Some?
      ensures EchoEncodable(FieldByKey(e.schema, k).value, rs[k])
    {
      AppliedCarries(cat, e, k, kv[k]);
      CarriesEncodes(e, k, rs[k]);
    }
  }

  lemma GateCarries(cat: Catalog, c: Conn, m: Intent)
    requires GateOf(cat, c, m).Pass? && Bounded(cat, GateOf(cat, c, m).e)
    ensures forall k :: k in GateOf(cat, c, m).kv ==> Carries(GateOf(cat, c, m).e, k, GateOf(cat, c, m).kv[k])
  {
    hide Validated, Carries, Bounded, Exempt, EchoIn;
    ValidatedCarries(cat, GateOf(cat, c, m).e, c.roles, m.value.value, map[]);
  }

  lemma CarefulAnswers(cat: Catalog, s: State, sid: nat, m: Intent)
    requires sid in s.conns && m.id.Some?
    requires var e := cat.Find(m.ch); e.Some? && e.value.IntentEntry? ==> Bounded(cat, e.value)
    ensures !Throws(cat, s, sid, m)
  {
    hide GateOf, PlanOf, Bounded, EchoThrows, Carries;
    var g := GateOf(cat, s.conns[sid], m);
    if Carried(cat, s, sid, m, g) {
      GateCarries(cat, s.conns[sid], m);
      ReportsEncode(cat, g.e, m.id.value, g.kv, Decision(cat, s, sid, m, g));
    }
  }

  /** An intent with an id, on a channel whose integers are bounded, is answered with an ECHO or changes nothing. */
  lemma IdAndBoundsSuffice(cat: Catalog, s: State, sid: nat, m: Intent)
    requires Fits(cat, s.vals) && sid in s.conns && m.id.Some?
    requires var e := cat.Find(m.ch); e.Some? && e.value.IntentEntry? ==> Bounded(cat, e.value)
    ensures OnIntent(cat, s, sid, m).reply.EchoReply? || OnIntent(cat, s, sid, m).s == s
  {
    hide GateOf, PlanOf, OnIntent, Bounded, Throws;
    AnsweredWhen(cat, s, sid, m);
    CarefulAnswers(cat, s, sid, m);
  }

  // ---- without an intent id --------------------------------------------------------------------------------

  /** An intent without an id is refused as malformed only after it has acted. */
  lemma ThrownActs(single: PackedWrite.ToSingle)
    requires single(0.0) == NullSingle()
    ensures var cat, s, m := Twin(single), Idle(single), BothIntent(None);
            && Fits(cat, s.vals) && OnIntent(cat, s, 7, m).reply == ThrownReply
            && OnIntent(cat, s, 7, m).s.vals != s.vals
  {
    hide Next, Machine, GateOf, PlanOf, Ignites, Running, Perform, FieldByKey;
    var cat, s, m := Twin(single), Idle(single), BothIntent(None);
    var e := cat.entries[1];
    TwinFits(single);
    TwinPlan(single, None);
    var x := Does(7, e, Both(), false, Writes(false));
    assert OnTrial(cat, m) == false;
    FollowedMachine(cat, s, 7, e, Both(), None, false, Writes(false));
    TwinIgnites(single, 0);
    RunsAfter(cat, s, x, Loc(100, 0));
    assert Machine(cat, s, x) == Perform(cat, s, 7, e.id, Both(), false, Writes(false)).s by { DoesMachine(cat, s, x); }
  }

  lemma DoesMachine(cat: Catalog, s: State, x: Effect)
    requires Fits(cat, s.vals) && x.Does? && !x.plan.Refuse?
    ensures Machine(cat, s, x) == Perform(cat, s, x.sid, x.e.id, x.kv, x.trial, x.plan).s
  {
    hide Perform;
  }

  // ---- a number no ECHO can carry ------------------------------------------------------------------------

  /** Channel 200 sets the level of channel 100, without bounds. */
  function Level(single: PackedWrite.ToSingle): Catalog {
    Catalog([StateEntry(100, WATCH, [LayoutField(Field("level", U32T, 1.0, None), NoRole, Some(1), false, None, None, None)],
                        Some(200), None),
             IntentEntry(200, CONTROL, [SchemaField(1, UIntT, Plain, None, None, None, false, None, None)], None)], false, single)
  }

  /** Session 7, whatever it is subscribed to, before the level is set. */
  function Levelled(subs: set<nat>): State {
    State(map[Loc(100, 0) := Num(0.0)], Latch(false, false, 0, 0, 0, 0, false, false, 0), map[], map[], map[], 1,
          map[7 := Conn(true, CONTROL, subs, [], map[Loc(100, 0) := Num(0.0)], None)])
  }

  const TOO_WIDE := 9007199254740992.0 // 2^53

  function SetLevel(id: Option<nat>): Intent {
    Intent(200, id, Some([KV(1, INum(TOO_WIDE))]), false)
  }

  function LevelSaid(): map<nat, IVal> {
    map[1 := INum(TOO_WIDE)]
  }

  lemma LevelPlaces(single: PackedWrite.ToSingle)
    ensures var cat := Level(single);
            && cat.WellFormed() && cat.Locs() == {Loc(100, 0)}
            && FindIn(cat.entries, 100) == Some(cat.entries[0]) && FindIn(cat.entries, 200) == Some(cat.entries[1])
            && !cat.TrialsOn()
  {
    var cat := Level(single);
    var e := cat.entries[0];
    assert FindIn(cat.entries[1..], 200) == Some(cat.entries[1]);
    assert FindIn(cat.entries[1..], CH_SETTINGS_TRIAL) == FindIn(cat.entries[2..], CH_SETTINGS_TRIAL);
    assert e in cat.entries && 0 <= 0 < |e.layout| && Loc(e.id, 0) == Loc(100, 0);
  }

  lemma LevelGate(single: PackedWrite.ToSingle, subs: set<nat>, id: Option<nat>)
    ensures GateOf(Level(single), Levelled(subs).conns[7], SetLevel(id)) == Pass(Level(single).entries[1], LevelSaid())
  {
    LevelPlaces(single);
    var e, value := Level(single).entries[1], [KV(1, INum(TOO_WIDE))];
    assert FieldByKey(e.schema, 1) == Some(e.schema[0]);
    assert value[1..] == [];
    assert Validated(e, CONTROL, value, map[]) == Good(LevelSaid());
  }

  lemma LevelPlan(single: PackedWrite.ToSingle, subs: set<nat>)
    ensures PlanOf(Level(single), Levelled(subs), 7, Level(single).entries[1], LevelSaid(), false) == Writes(false)
  {
    LevelPlaces(single);
  }

  lemma LevelWrites(single: PackedWrite.ToSingle)
    ensures var cat, l := Level(single), Loc(100, 0);
            && cat.SettingOf(l) == Some(Setting(200, 1))
            && StoreAt(cat, 200, LevelSaid(), l) == Some(Num(TOO_WIDE))
            && cat.HasLoc(l) && Known(cat.At(l).f.kind) && StoredAt(cat, l, Num(TOO_WIDE)) == Num(HIGHEST)
            && AppliedValue(cat.entries, 200, 1, INum(TOO_WIDE)) == INum(TOO_WIDE)
  {
    var cat := Level(single);
    LevelPlaces(single);
    RoundInt(9007199254740992);
    assert MirrorAt(cat.entries[1], 200, 1).None?;
    assert MirrorAt(cat.entries[0], 200, 1) == Some(0);
    assert LastMirror(cat.entries, 2, 200, 1) == Some(cat.entries[0].layout[0]);
  }

  lemma LevelThrows(single: PackedWrite.ToSingle, id: Option<nat>)
    ensures EchoThrows(Level(single).entries[1], id, Reports(Level(single), 200, LevelSaid(), Writes(false)))
  {
    LevelWrites(single);
    var e := Level(single).entries[1];
    assert FieldByKey(e.schema, 1) == Some(e.schema[0]);
    assert 1 in Reports(Level(single), 200, LevelSaid(), Writes(false));
  }

  /** The level is set, and there is no answer to give. */
  lemma LevelThrown(single: PackedWrite.ToSingle, subs: set<nat>, id: Option<nat>)
    ensures var cat, s, g := Level(single), Levelled(subs), GateOf(Level(single), Levelled(subs).conns[7], SetLevel(id));
            && Fits(cat, s.vals) && Throws(cat, s, 7, SetLevel(id)) && g.kv == LevelSaid()
            && g.e == cat.entries[1] && Decision(cat, s, 7, SetLevel(id), g) == Writes(false)
  {
    hide GateOf, PlanOf, Reports;
    LevelPlaces(single);
    LevelGate(single, subs, id);
    LevelPlan(single, subs);
    LevelThrows(single, id);
  }

  /** A level of 2^53, with an id, is written saturated, and only then found impossible to report. */
  lemma TooWideActs(single: PackedWrite.ToSingle)
    requires single(0.0) == NullSingle()
    ensures var cat, s, m := Level(single), Levelled({}), SetLevel(Some(1));
            && Fits(cat, s.vals) && OnIntent(cat, s, 7, m).reply == ThrownReply
            && OnIntent(cat, s, 7, m).s.vals == map[Loc(100, 0) := Num(HIGHEST)]
  {
    hide OnIntent, GateOf, PlanOf, Followed, Perform, PutAt, After, Throws;
    var cat, s, m := Level(single), Levelled({}), SetLevel(Some(1));
    LevelThrown(single, {}, Some(1));
    LevelGate(single, {}, Some(1));
    AnsweredWhen(cat, s, 7, m);
    IntentPerforms(cat, s, 7, m, cat.entries[1], LevelSaid(), Writes(false));
    LevelApart(single);
    PerformPlace(cat, s, 7, 200, LevelSaid(), false, Writes(false), Loc(100, 0));
    LevelAfter(single);
  }

  lemma LevelApart(single: PackedWrite.ToSingle)
    requires single(0.0) == NullSingle()
    ensures Level(single).Apart() && Level(single).SettingOf(Loc(100, 0)).Some?
  {
    LevelWrites(single);
  }

  lemma LevelAfter(single: PackedWrite.ToSingle)
    requires Fits(Level(single), Levelled({}).vals)
    ensures After(Level(single), Levelled({}).vals, Loc(100, 0), PutAt(Level(single), Levelled({}), 7, 200, LevelSaid(), Writes(false), Loc(100, 0)))
         == Num(HIGHEST)
  {
    LevelWrites(single);
  }

  /** An intent that is carried out leaves the values its plan leaves. */
  lemma IntentPerforms(cat: Catalog, s: State, sid: nat, m: Intent, e: Entry, kv: map<nat, IVal>, plan: Plan)
    requires Fits(cat, s.vals) && sid in s.conns && GateOf(cat, s.conns[sid], m) == Pass(e, kv) && e.IntentEntry?
    requires PlanOf(cat, s, sid, e, kv, OnTrial(cat, m)) == plan && !plan.Refuse?
    ensures OnIntent(cat, s, sid, m).s.vals == Perform(cat, s, sid, e.id, kv, OnTrial(cat, m), plan).s.vals
  {
    hide GateOf, PlanOf, Perform, Followed;
    FollowedMachine(cat, s, sid, e, kv, m.id, OnTrial(cat, m), plan);
  }
}
